/** Splitting UDP messages and putting them together again, core/internal/frag/frag.go. */
module Frag {
  import opened Basics
  import opened Slots
  import opened UdpCodec

  const MAX_FRAGMENTS := 255

  /** `data` cut into pieces of `size` bytes, the last of which may be shorter. */
  function Chunks(data: bytes, size: nat): (chunks: seq<bytes>)
    requires size > 0
    ensures forall i | 0 <= i < |chunks| :: 0 < |chunks[i]| <= size
    ensures (data == [] ==> chunks == []) && (|data| > size ==> |chunks| >= 2)
    decreases |data|
  {
    if data == [] then []
    else if |data| <= size then [data]
    else [data[..size]] + Chunks(data[size..], size)
  }

  function RoundedUp(n: nat, d: nat): nat
    requires d > 0
  {
    (n + d - 1) / d
  }

  lemma {:induction false} ChunksCoverData(data: bytes, size: nat)
    requires size > 0
    ensures Flatten(Chunks(data, size)) == data
    ensures |Chunks(data, size)| == RoundedUp(|data|, size)
    decreases |data|
  {
    if data == [] {
      SmallQuotient(size - 1, size);
    } else if |data| <= size {
      QuotientStep(|data| - 1, size);
      SmallQuotient(|data| - 1, size);
    } else {
      ChunksCoverData(data[size..], size);
      QuotientStep(|data| - 1, size);
    }
  }

  lemma SmallQuotient(n: nat, d: nat)
    requires n < d
    ensures n / d == 0
  {
  }

  lemma QuotientStep(n: nat, d: nat)
    requires d > 0
    ensures (n + d) / d == n / d + 1
  {
    var q, r := n / d, n % d;
    Distribute(q, 1, d);
    UniqueModulus(n + d, q + 1, r, d);
    Distribute((n + d) / d, -(q + 1), d);
    SmallMultiple((n + d) / d - (q + 1), d);
  }

  datatype FragmentResult = Fragments(list: seq<UDPMessage>) | IndexPanic

  function Fragment(m: UDPMessage, i: byte, n: byte, chunk: bytes): UDPMessage {
    m.(fragID := i, fragCount := n, data := chunk)
  }

  /** The fragments of a message that has to be split. */
  function Split(m: UDPMessage, chunks: seq<bytes>): (list: seq<UDPMessage>)
    requires |chunks| <= MAX_FRAGMENTS
    ensures |list| == |chunks|
  {
    seq(|chunks|, i requires 0 <= i < |chunks| => Fragment(m, i, |chunks|, chunks[i]))
  }

  /** The pieces are numbered with single bytes, so a message that needs more than 255 pieces runs
      past the end of a list whose length has wrapped around. */
  function SplitMessage(m: UDPMessage, maxSize: int): FragmentResult {
    var maxPayload := maxSize - m.HeaderSize();
    if m.Size() <= maxSize then Fragments([m])
    else if maxPayload <= 0 then Fragments([])
    else
      var chunks := Chunks(m.data, maxPayload);
      if |chunks| <= MAX_FRAGMENTS then Fragments(Split(m, chunks)) else IndexPanic
  }

  method FragUDPMessage(m: UDPMessage, maxSize: int) returns (r: FragmentResult)
    ensures r == SplitMessage(m, maxSize)
  {
    if m.Size() <= maxSize {
      return Fragments([m]);
    }
    var maxPayloadSize := maxSize - m.HeaderSize();
    if maxPayloadSize <= 0 {
      return Fragments([]);
    }
    ghost var chunks := Chunks(m.data, maxPayloadSize);
    ChunksCoverData(m.data, maxPayloadSize);
    hide Chunks, Flatten, RoundedUp;
    var fragCount: byte := RoundedUp(|m.data|, maxPayloadSize) % 256;
    var frags := new UDPMessage[fragCount](_ => m);
    var inRange := FillFragments(m, maxPayloadSize, fragCount, frags);
    if !inRange {
      return IndexPanic;
    }
    assert |chunks| == fragCount as int;
    assert frags[..] == Split(m, chunks);
    return Fragments(frags[..]);
  }

  /** The loop over the data; `inRange` says that it has not run past the end of the list. */
  method FillFragments(m: UDPMessage, maxPayloadSize: nat, fragCount: byte, frags: array<UDPMessage>)
    returns (inRange: bool)
    requires maxPayloadSize > 0 && frags.Length == fragCount as int
    modifies frags
    ensures var chunks := Chunks(m.data, maxPayloadSize);
            && (inRange <==> |chunks| <= fragCount as int)
            && (inRange ==> FilledTo(frags[..], m, fragCount, chunks, |chunks|))
  {
    var off, fragID: byte := 0, 0;
    ghost var chunks := Chunks(m.data, maxPayloadSize);
    FirstChunk(m.data, maxPayloadSize);
    assert FilledTo(frags[..], m, fragCount, chunks, 0);
    hide *;
    while off < |m.data|
      invariant 0 <= off <= |m.data| && fragID <= fragCount && fragID <= |chunks|
      invariant AtChunk(m.data, off, maxPayloadSize, chunks, fragID)
      invariant FilledTo(frags[..], m, fragCount, chunks, fragID)
      decreases |m.data| - off
    {
      var payloadSize := |m.data| - off;
      if payloadSize > maxPayloadSize {
        payloadSize := maxPayloadSize;
      }
      NextChunk(m.data, off, payloadSize, maxPayloadSize, chunks, fragID);
      if fragID >= frags.Length {
        return false;
      }
      FillOneMore(frags[..], m, fragCount, chunks, fragID);
      ghost var was := frags[..];
      frags[fragID] := Fragment(m, fragID, fragCount, m.data[off..off + payloadSize]);
      assert frags[..] == was[fragID as int := Fragment(m, fragID, fragCount, chunks[fragID])];
      off := off + payloadSize;
      fragID := (fragID + 1) % 256;
    }
    LastChunk(m.data, maxPayloadSize, chunks, fragID);
    return true;
  }

  /** The first `k` places of the list hold the fragments of the first `k` chunks. */
  ghost predicate FilledTo(frags: seq<UDPMessage>, m: UDPMessage, n: byte, chunks: seq<bytes>, k: nat) {
    k <= |frags| <= MAX_FRAGMENTS && k <= |chunks| && forall j: byte | j < k :: frags[j] == Fragment(m, j, n, chunks[j])
  }

  lemma FillOneMore(frags: seq<UDPMessage>, m: UDPMessage, n: byte, chunks: seq<bytes>, k: byte)
    requires FilledTo(frags, m, n, chunks, k) && k < |frags| && k < |chunks|
    ensures FilledTo(frags[k := Fragment(m, k, n, chunks[k])], m, n, chunks, k + 1)
  {
  }

  /** From `off` on, the data makes up the chunks from number `k` on. */
  ghost predicate AtChunk(data: bytes, off: nat, size: nat, chunks: seq<bytes>, k: nat)
    requires size > 0 && off <= |data|
  {
    k <= |chunks| && chunks[k..] == Chunks(data[off..], size)
  }

  lemma FirstChunk(data: bytes, size: nat)
    requires size > 0
    ensures AtChunk(data, 0, size, Chunks(data, size), 0)
  {
    assert data[0..] == data;
  }

  lemma LastChunk(data: bytes, size: nat, chunks: seq<bytes>, k: nat)
    requires size > 0 && AtChunk(data, |data|, size, chunks, k)
    ensures k == |chunks|
  {
    assert data[|data|..] == [];
  }

  lemma NextChunk(data: bytes, off: nat, len: nat, size: nat, chunks: seq<bytes>, k: nat)
    requires size > 0 && off < |data| && len == Min(|data| - off, size)
    requires AtChunk(data, off, size, chunks, k)
    ensures k < |chunks| && chunks[k] == data[off..off + len] && AtChunk(data, off + len, size, chunks, k + 1)
  {
    var rest := data[off..];
    assert rest[..len] == data[off..off + len] && rest[len..] == data[off + len..];
    if len == |rest| {
      assert rest[..len] == rest && rest[len..] == [];
    }
    assert Chunks(rest, size) == [rest[..len]] + Chunks(rest[len..], size);
    hide Chunks;
    assert chunks[k] == chunks[k..][0] && chunks[k + 1..] == chunks[k..][1..];
  }

  /** Splitting goes wrong exactly when more than 255 pieces are needed. */
  lemma SplitPanicsIff(m: UDPMessage, maxSize: int)
    ensures SplitMessage(m, maxSize) == IndexPanic
            <==> var room := maxSize - m.HeaderSize();
                 0 < room < |m.data| && RoundedUp(|m.data|, room) > MAX_FRAGMENTS
  {
    var room := maxSize - m.HeaderSize();
    if room > 0 {
      ChunksCoverData(m.data, room);
    }
  }

  /** A message with an address of 1180 bytes and 4096 bytes of data leaves room for 10 bytes in datagrams of 1200,
      and so needs 410 pieces. */
  lemma LongAddressOverrunsList(m: UDPMessage)
    requires |m.addr| == 1180 && |m.data| == 4096
    ensures SplitMessage(m, 1200) == IndexPanic
  {
    SplitPanicsIff(m, 1200);
    assert m.HeaderSize() == 1190 && RoundedUp(4096, 10) == 410;
  }

  /** Every fragment fits, keeps the addressing, and the payloads make up the original data. */
  lemma SplitFits(m: UDPMessage, maxSize: int)
    requires SplitMessage(m, maxSize).Fragments?
    ensures var list := SplitMessage(m, maxSize).list;
            && (forall f | f in list :: f.Size() <= maxSize)
            && (list != [] && m.Size() > maxSize ==>
                  && 2 <= |list|
                  && Flatten(Payloads(list)) == m.data
                  && forall i | 0 <= i < |list| ::
                       list[i].data != [] && list[i] == m.(fragID := i, fragCount := |list|, data := list[i].data))
  {
    var room := maxSize - m.HeaderSize();
    if m.Size() > maxSize && room > 0 {
      var chunks := Chunks(m.data, room);
      ChunksCoverData(m.data, room);
      assert Payloads(Split(m, chunks)) == chunks;
    }
  }

  function Payloads(list: seq<UDPMessage>): seq<bytes> {
    seq(|list|, i requires 0 <= i < |list| => list[i].data)
  }

  // Reassembly

  /** A pointer to a message: the message completed last is rewritten in place. */
  class MessageRef {
    var value: UDPMessage

    constructor (value: UDPMessage)
      ensures this.value == value
    {
      this.value := value;
    }
  }

  datatype DefragState = DefragState(pktID: uint16, slots: seq<Option<UDPMessage>>, count: int, size: int)

  const EMPTY := DefragState(0, [], 0, 0)

  function Datas(slots: seq<Option<UDPMessage>>): seq<bytes> {
    seq(|slots|, i requires 0 <= i < |slots| => if slots[i].Some? then slots[i].value.data else [])
  }

  /** A message that is not split, with the addressing of `m`. */
  function Whole(m: UDPMessage, data: bytes): UDPMessage {
    m.(fragID := 0, fragCount := 1, data := data)
  }

  /** The message that the fragments in `slots` add up to; `last` lends it the other fields. */
  function Assembled(slots: seq<Option<UDPMessage>>, last: UDPMessage): UDPMessage {
    Whole(last, Flatten(Datas(slots)))
  }

  /** One delivery: the new state and the completed message, if any. The slot of the last fragment
      ends up holding the completed message, because both are the same object. */
  function Deliver(s: DefragState, m: UDPMessage): (DefragState, Option<UDPMessage>) {
    if m.fragCount <= 1 then (s, Some(m))
    else if m.fragID >= m.fragCount then (s, None)
    else if m.packetID != s.pktID || m.fragCount != |s.slots| then
      (DefragState(m.packetID, seq(m.fragCount, _ => None)[m.fragID := Some(m)], 1, |m.data|), None)
    else if s.slots[m.fragID].None? then
      var slots, count, size := s.slots[m.fragID := Some(m)], s.count + 1, s.size + |m.data|;
      if count == |slots| then
        var whole := Assembled(slots, m);
        (DefragState(s.pktID, slots[m.fragID := Some(whole)], count, size), Some(whole))
      else (DefragState(s.pktID, slots, count, size), None)
    else (s, None)
  }

  /** Storing a fragment in a free slot adds one to the count and its length to the size. */
  lemma FillSlot(slots: seq<Option<UDPMessage>>, k: nat, m: UDPMessage)
    requires k < |slots| && slots[k].None?
    ensures Filled(slots[k := Some(m)]) == Filled(slots) + 1
    ensures |Flatten(Datas(slots[k := Some(m)]))| == |Flatten(Datas(slots))| + |m.data|
  {
    var after := slots[k := Some(m)];
    FilledOneMore(slots, k, m);
    SplitDatas(slots, k);
    SplitDatas(after, k);
    assert after[..k] == slots[..k] && after[k + 1..] == slots[k + 1..];
  }

  lemma SplitDatas(slots: seq<Option<UDPMessage>>, k: nat)
    requires k < |slots|
    ensures |Flatten(Datas(slots))| ==
            |Flatten(Datas(slots[..k]))| + |Datas(slots)[k]| + |Flatten(Datas(slots[k + 1..]))|
  {
    var head, tail := Datas(slots[..k]), Datas(slots[k + 1..]);
    assert Datas(slots) == head + ([Datas(slots)[k]] + tail);
    FlattenConcat(head, [Datas(slots)[k]] + tail);
  }

  class Defragger {
    var pktID: uint16
    var frags: seq<MessageRef?>
    var count: byte
    var size: nat

    ghost function Slots(): (slots: seq<Option<UDPMessage>>)
      reads this, frags
      ensures |slots| == |frags|
    {
      SlotsOf(frags)
    }

    ghost function State(): DefragState
      reads this, frags
    {
      DefragState(pktID, Slots(), count, size)
    }

    /** The counter agrees with the slots, and so does the size until the message is complete. */
    ghost predicate Valid()
      reads this, frags
    {
      && |frags| <= MAX_FRAGMENTS
      && count == Filled(Slots())
      && (count < |frags| ==> size == |Flatten(Datas(Slots()))|)
    }

    constructor ()
      ensures Valid() && State() == EMPTY && frags == []
    {
      pktID, frags, count, size := 0, [], 0, 0;
    }

    method Feed(m: MessageRef) returns (r: MessageRef?)
      requires Valid()
      modifies this, m
      ensures Valid()
      ensures forall f | f in frags :: f == null || f == m || f in old(frags)
      ensures r == if Deliver(old(State()), old(m.value)).1.Some? then m else null
      ensures m.value == if r == null then old(m.value) else Deliver(old(State()), old(m.value)).1.value
      ensures m !in old(frags) ==> State() == Deliver(old(State()), old(m.value)).0
    {
      var msg := m.value;
      if msg.fragCount <= 1 {
        return m;
      }
      if msg.fragID >= msg.fragCount {
        return null;
      }
      hide Filled, Flatten, Datas, SlotsOf;
      if msg.packetID != pktID || msg.fragCount != |frags| {
        Restart(m);
        return null;
      } else if IsFree(msg.fragID) {
        Store(m);
        if count == |frags| {
          Complete(m, msg.fragID);
          return m;
        }
      }
      return null;
    }

    predicate IsFree(k: nat)
      requires k < |frags|
      reads this, frags
      ensures IsFree(k) <==> Slots()[k].None?
    {
      frags[k] == null
    }

    method Store(m: MessageRef)
      requires Valid() && m.value.fragID < |frags| && IsFree(m.value.fragID)
      modifies this
      ensures frags == old(frags)[m.value.fragID := m] && pktID == old(pktID)
      ensures Slots() == old(Slots())[m.value.fragID := Some(m.value)]
      ensures count == old(count) + 1 == Filled(Slots())
      ensures size == old(size) + |m.value.data| == |Flatten(Datas(Slots()))|
    {
      hide Filled, Flatten, Datas;
      ghost var slots, k := Slots(), m.value.fragID;
      FilledBounds(slots);
      FillSlot(slots, k, m.value);
      FilledBounds(slots[k := Some(m.value)]);
      frags := frags[m.value.fragID := m];
      assert Slots() == slots[k := Some(m.value)];
      count := count + 1;
      size := size + |m.value.data|;
    }

    /** Forgets an unfinished message and begins with the first fragment of another one. */
    method Restart(m: MessageRef)
      requires 1 < m.value.fragCount && m.value.fragID < m.value.fragCount
      modifies this
      ensures Valid() && forall f | f in frags :: f == null || f == m
      ensures var msg := m.value;
              State() == DefragState(msg.packetID, seq(msg.fragCount, _ => None)[msg.fragID := Some(msg)], 1,
                  |msg.data|)
    {
      hide Filled, Flatten, Datas;
      var msg := m.value;
      ghost var blank: seq<Option<UDPMessage>> := seq(msg.fragCount, _ => None);
      FilledBounds(blank);
      FlattenEmpty(blank);
      FillSlot(blank, msg.fragID, msg);
      pktID := msg.packetID;
      frags := seq(msg.fragCount, _ => null)[msg.fragID := m];
      count := 1;
      size := |msg.data|;
      assert Slots() == blank[msg.fragID := Some(msg)];
    }

    /** Rewrites the last fragment, which stays stored in its slot, into the complete message. */
    method Complete(m: MessageRef, ghost k: nat)
      requires count == Filled(Slots()) == |frags| && size == |Flatten(Datas(Slots()))|
      requires k < |frags| && frags[k] == m
      modifies m
      ensures m.value == Assembled(old(Slots()), old(m.value))
      ensures Filled(Slots()) == old(Filled(Slots()))
      ensures (forall j | 0 <= j < |frags| && j != k :: frags[j] != m) ==> Slots() == old(Slots())[k := Some(m.value)]
    {
      FilledBounds(Slots());
      assert forall i | 0 <= i < |frags| :: Slots()[i].Some? ==> frags[i] != null;
      var data := Assemble();
      m.value := m.value.(data := data, fragID := 0, fragCount := 1);
      FilledDependsOnPresence(old(Slots()), Slots());
    }

    /** Copies the stored payloads one after the other into a buffer of the accumulated size. */
    method Assemble() returns (data: bytes)
      requires size == |Flatten(Datas(Slots()))| && null !in frags
      ensures data == Flatten(Datas(Slots()))
    {
      var buf := new byte[size](_ => 0);
      var off := 0;
      ghost var parts := Datas(Slots());
      for i := 0 to |frags|
        invariant 0 <= off <= size && fresh(buf)
        invariant buf[..off] + Flatten(parts[i..]) == Flatten(parts)
      {
        TakePart(buf[..off], parts, i);
        ghost var was := buf[..off];
        var part := frags[i].value.data;
        assert part == parts[i];
        hide *;
        assert |was + part| <= |Flatten(parts)|;
        Put(buf, off, part);
        assert buf[..off + |part|] == was + part;
        off := off + |part|;
      }
      assert parts[|frags|..] == [] && buf[..off] == buf[..];
      data := buf[..];
    }
  }

  lemma {:induction false} FlattenEmpty(slots: seq<Option<UDPMessage>>)
    requires forall i | 0 <= i < |slots| :: slots[i].None?
    ensures Flatten(Datas(slots)) == []
  {
    if slots == [] {
    } else {
      FlattenEmpty(slots[1..]);
      assert Datas(slots)[1..] == Datas(slots[1..]);
    }
  }

  ghost function SlotsOf(frags: seq<MessageRef?>): (slots: seq<Option<UDPMessage>>)
    reads frags
  {
    seq(|frags|, i requires 0 <= i < |frags| reads frags => if frags[i] == null then None else Some(frags[i].value))
  }

  // Whole runs

  /** An order of arrival of `n` fragments, with any omissions and repetitions. */
  predicate Numbers(order: seq<nat>, n: nat) {
    forall k | 0 <= k < |order| :: order[k] < n
  }

  ghost function Seen(order: seq<nat>): set<nat> {
    set i | i in order
  }

  lemma SeenOneMore(order: seq<nat>)
    requires order != []
    ensures Seen(order) == Seen(order[..|order| - 1]) + {order[|order| - 1]}
  {
    assert order == order[..|order| - 1] + [order[|order| - 1]];
  }

  /** The state after the network has delivered fragments of `list` in the given order. */
  function StateAfter(s: DefragState, list: seq<UDPMessage>, order: seq<nat>): DefragState
    requires Numbers(order, |list|)
    decreases order
  {
    if order == [] then s
    else Deliver(StateAfter(s, list, order[..|order| - 1]), list[order[|order| - 1]]).0
  }

  /** What the delivery at position `k` of that order returns. */
  function Output(s: DefragState, list: seq<UDPMessage>, order: seq<nat>, k: nat): Option<UDPMessage>
    requires Numbers(order, |list|) && k < |order|
  {
    Deliver(StateAfter(s, list, order[..k]), list[order[k]]).1
  }

  /** The state after the fragments numbered in `got` have arrived. */
  ghost predicate Holds(s: DefragState, m: UDPMessage, chunks: seq<bytes>, got: set<nat>)
    requires |chunks| <= MAX_FRAGMENTS
  {
    && s.pktID == m.packetID && |s.slots| == |chunks|
    && got != {} && got <= Indices(|chunks|) && s.count == |got|
    && (forall i: nat | i < |chunks| :: s.slots[i].Some? <==> i in got)
    && (got != Indices(|chunks|) ==> forall i: nat | i in got :: s.slots[i] == Some(Split(m, chunks)[i]))
  }

  predicate Unrelated(s: DefragState, m: UDPMessage, chunks: seq<bytes>) {
    s.pktID != m.packetID || |s.slots| != |chunks|
  }

  ghost predicate Progress(s: DefragState, m: UDPMessage, chunks: seq<bytes>, got: set<nat>)
    requires |chunks| <= MAX_FRAGMENTS
  {
    if got == {} then Unrelated(s, m, chunks) else Holds(s, m, chunks, got)
  }

  lemma DeliverFragment(s: DefragState, m: UDPMessage, chunks: seq<bytes>, got: set<nat>, i: nat)
    requires 2 <= |chunks| <= MAX_FRAGMENTS && i < |chunks|
    requires Progress(s, m, chunks, got)
    ensures var (next, out) := Deliver(s, Split(m, chunks)[i]);
            && Progress(next, m, chunks, got + {i})
            && out == if got != Indices(|chunks|) && got + {i} == Indices(|chunks|)
                      then Some(Whole(m, Flatten(chunks))) else None
  {
    if got == {} {
      FirstFragment(s, m, chunks, i);
    } else if i in got {
      assert got + {i} == got;
    } else if got + {i} == Indices(|chunks|) {
      LastFragment(s, m, chunks, got, i);
    } else {
      NextFragment(s, m, chunks, got, i);
    }
  }

  lemma FirstFragment(s: DefragState, m: UDPMessage, chunks: seq<bytes>, i: nat)
    requires 2 <= |chunks| <= MAX_FRAGMENTS && i < |chunks| && Unrelated(s, m, chunks)
    ensures var (next, out) := Deliver(s, Split(m, chunks)[i]);
            Holds(next, m, chunks, {i}) && out == None && {i} != Indices(|chunks|)
  {
    IndicesSize(|chunks|, {i});
  }

  lemma NextFragment(s: DefragState, m: UDPMessage, chunks: seq<bytes>, got: set<nat>, i: nat)
    requires 2 <= |chunks| <= MAX_FRAGMENTS && i < |chunks|
    requires Holds(s, m, chunks, got) && i !in got && got + {i} != Indices(|chunks|)
    ensures var (next, out) := Deliver(s, Split(m, chunks)[i]);
            Holds(next, m, chunks, got + {i}) && out == None
  {
    var f := Split(m, chunks)[i];
    IndicesSize(|chunks|, got + {i});
    assert Deliver(s, f).0.slots == s.slots[i := Some(f)];
  }

  /** The delivery that fills the last free slot. */
  lemma DeliverLast(s: DefragState, f: UDPMessage)
    requires 1 < f.fragCount == |s.slots| && f.fragID < f.fragCount && f.packetID == s.pktID
    requires s.slots[f.fragID].None? && s.count + 1 == |s.slots|
    ensures var (next, out) := Deliver(s, f);
            && next.pktID == s.pktID && next.count == |next.slots| == |s.slots|
            && next.slots[f.fragID].Some?
            && (forall j | 0 <= j < |s.slots| && j != f.fragID :: next.slots[j] == s.slots[j])
            && out == Some(Assembled(s.slots[f.fragID := Some(f)], f))
  {
    hide Assembled;
  }

  /** The state before the last fragment: only its slot is free. */
  lemma OneSlotIsFree(s: DefragState, m: UDPMessage, chunks: seq<bytes>, got: set<nat>, i: nat)
    requires 2 <= |chunks| <= MAX_FRAGMENTS && i < |chunks|
    requires Holds(s, m, chunks, got) && i !in got && got + {i} == Indices(|chunks|)
    ensures s.pktID == m.packetID && |s.slots| == |chunks| && s.slots[i].None?
    ensures s.count + 1 == |got + {i}| == |chunks|
    ensures forall j: nat | j < |chunks| && j != i :: s.slots[j].Some?
  {
    IndicesSize(|chunks|, got + {i});
    forall j: nat | j < |chunks| && j != i ensures s.slots[j].Some? {
      assert j in got + {i};
    }
  }

  lemma FullHolds(s: DefragState, m: UDPMessage, chunks: seq<bytes>)
    requires 2 <= |chunks| <= MAX_FRAGMENTS && s.pktID == m.packetID && |s.slots| == |chunks| == s.count
    requires forall j: nat | j < |chunks| :: s.slots[j].Some?
    ensures Holds(s, m, chunks, Indices(|chunks|))
  {
    IndicesSize(|chunks|, Indices(|chunks|));
    assert 0 in Indices(|chunks|);
  }

  lemma LastFragment(s: DefragState, m: UDPMessage, chunks: seq<bytes>, got: set<nat>, i: nat)
    requires 2 <= |chunks| <= MAX_FRAGMENTS && i < |chunks|
    requires Holds(s, m, chunks, got) && i !in got && got + {i} == Indices(|chunks|)
    ensures var (next, out) := Deliver(s, Split(m, chunks)[i]);
            Holds(next, m, chunks, got + {i}) && out == Some(Whole(m, Flatten(chunks)))
  {
    var f := Split(m, chunks)[i];
    assert f == Fragment(m, i, |chunks|, chunks[i]);
    OneSlotIsFree(s, m, chunks, got, i);
    LastIsWhole(s, m, chunks, got, i);
    hide Holds, Deliver, Assembled, Whole, Flatten, Split, Indices;
    DeliverLast(s, f);
    FullHolds(Deliver(s, f).0, m, chunks);
  }

  lemma LastIsWhole(s: DefragState, m: UDPMessage, chunks: seq<bytes>, got: set<nat>, i: nat)
    requires 2 <= |chunks| <= MAX_FRAGMENTS && i < |chunks|
    requires Holds(s, m, chunks, got) && i !in got && got + {i} == Indices(|chunks|)
    ensures var f := Split(m, chunks)[i];
            Assembled(s.slots[i := Some(f)], f) == Whole(m, Flatten(chunks))
  {
    CompletedSlots(s, m, chunks, got, i);
    CompletedData(s.slots[i := Some(Split(m, chunks)[i])], m, chunks);
    hide Datas, Flatten, Indices, Holds;
  }

  lemma CompletedSlots(s: DefragState, m: UDPMessage, chunks: seq<bytes>, got: set<nat>, i: nat)
    requires 2 <= |chunks| <= MAX_FRAGMENTS && i < |chunks|
    requires Holds(s, m, chunks, got) && i !in got && got + {i} == Indices(|chunks|)
    ensures var slots := s.slots[i := Some(Split(m, chunks)[i])];
            forall j: nat | j < |chunks| :: slots[j] == Some(Split(m, chunks)[j])
  {
    forall j: nat | j < |chunks| && j != i ensures s.slots[j] == Some(Split(m, chunks)[j]) {
      assert j in got + {i};
    }
  }

  lemma CompletedData(slots: seq<Option<UDPMessage>>, m: UDPMessage, chunks: seq<bytes>)
    requires |slots| == |chunks| <= MAX_FRAGMENTS
    requires forall j: nat | j < |chunks| :: slots[j] == Some(Split(m, chunks)[j])
    ensures Datas(slots) == chunks
  {
  }

  lemma {:induction false} HoldsAfter(s: DefragState, m: UDPMessage, chunks: seq<bytes>, order: seq<nat>)
    requires 2 <= |chunks| <= MAX_FRAGMENTS && Numbers(order, |chunks|) && Unrelated(s, m, chunks)
    ensures Progress(StateAfter(s, Split(m, chunks), order), m, chunks, Seen(order))
    decreases order
  {
    if order == [] {
    } else {
      var before := order[..|order| - 1];
      SeenOneMore(order);
      HoldsAfter(s, m, chunks, before);
      DeliverFragment(StateAfter(s, Split(m, chunks), before), m, chunks, Seen(before), order[|order| - 1]);
    }
  }

  ghost predicate AllArrived(order: seq<nat>, n: nat) {
    forall i: nat | i < n :: i in order
  }

  lemma AllArrivedIff(order: seq<nat>, n: nat)
    requires Numbers(order, n)
    ensures AllArrived(order, n) <==> Seen(order) == Indices(n)
  {
    if Seen(order) == Indices(n) {
      forall i: nat | i < n ensures i in order {
        assert i in Seen(order);
      }
    }
  }

  /** Splitting a message, sending the fragments over the wire, and delivering them in any order and
      with any repetitions gives nothing until the last missing fragment arrives, then the original
      message once, and nothing for later repetitions. The fragment fields of the result are those
      of a message that was never split. */
  lemma EndToEnd(m: UDPMessage, maxSize: int, s: DefragState, order: seq<nat>, k: nat)
    requires 1 <= |m.addr| <= MAX_ADDRESS_LENGTH
    requires SplitMessage(m, maxSize).Fragments? && |SplitMessage(m, maxSize).list| >= 2
    requires Numbers(order, |SplitMessage(m, maxSize).list|) && k < |order|
    requires s.pktID != m.packetID || |s.slots| != |SplitMessage(m, maxSize).list|
    ensures var list := SplitMessage(m, maxSize).list;
            && (forall f | f in list :: f.Size() <= maxSize && Parse(Encode(f)) == Parsed(f))
            && Output(s, list, order, k) ==
               if AllArrived(order[..k + 1], |list|) && !AllArrived(order[..k], |list|)
               then Some(UDPMessage(m.sessionID, m.packetID, 0, 1, m.addr, m.data)) else None
  {
    var list, chunks := SplitMessage(m, maxSize).list, Chunks(m.data, maxSize - m.HeaderSize());
    FragmentsTravel(m, maxSize);
    ChunksCoverData(m.data, maxSize - m.HeaderSize());
    hide Parse, Encode, Chunks, Output, AllArrived, Flatten;
    OutputInRun(s, m, chunks, order, k);
  }

  lemma OutputInRun(s: DefragState, m: UDPMessage, chunks: seq<bytes>, order: seq<nat>, k: nat)
    requires 2 <= |chunks| <= MAX_FRAGMENTS && Numbers(order, |chunks|) && Unrelated(s, m, chunks) && k < |order|
    ensures Output(s, Split(m, chunks), order, k) ==
            if AllArrived(order[..k + 1], |chunks|) && !AllArrived(order[..k], |chunks|)
            then Some(Whole(m, Flatten(chunks))) else None
  {
    hide Deliver, Progress, AllArrived, Flatten, Whole, Split, Indices, Seen, StateAfter;
    HoldsAfter(s, m, chunks, order[..k]);
    AllArrivedIff(order[..k], |chunks|);
    AllArrivedIff(order[..k + 1], |chunks|);
    SeenOneMore(order[..k + 1]);
    assert order[..k + 1][..k] == order[..k];
    DeliverFragment(StateAfter(s, Split(m, chunks), order[..k]), m, chunks, Seen(order[..k]), order[k]);
  }

  lemma FragmentsTravel(m: UDPMessage, maxSize: int)
    requires 1 <= |m.addr| <= MAX_ADDRESS_LENGTH
    requires SplitMessage(m, maxSize).Fragments? && |SplitMessage(m, maxSize).list| >= 2
    ensures forall f | f in SplitMessage(m, maxSize).list :: f.Size() <= maxSize && Parse(Encode(f)) == Parsed(f)
  {
    SplitFits(m, maxSize);
    forall f | f in SplitMessage(m, maxSize).list ensures Parse(Encode(f)) == Parsed(f) {
      RoundTrip(f);
    }
  }

  /** A message that fits is passed on as it is, and a message that was never split is delivered at
      once whatever the reassembler holds. */
  lemma WholeMessage(m: UDPMessage, maxSize: int, s: DefragState)
    requires m.Size() <= maxSize && m.fragCount <= 1
    ensures SplitMessage(m, maxSize) == Fragments([m]) && Deliver(s, m) == (s, Some(m))
  {
  }
}
