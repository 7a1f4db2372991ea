/** Whole runs of the Gecko receiver: frames of many packets and expiry sweeps in any order. */
module GeckoRun {
  import opened Basics
  import opened Slots
  import opened GeckoFrame
  import opened Gecko

  datatype Event = Frame(addr: string, header: FrameHeader, payload: bytes, now: int) | Sweep(now: int)
  {
    predicate IsFor(k: Key) {
      Frame? && Key(addr, header.msgID) == k
    }

    /** If the event concerns `k`, it carries a piece of the packet sent in `n` pieces. */
    predicate Carries(k: Key, p: bytes, n: nat) {
      IsFor(k) ==> header.totalChunks == n && header.chunkIdx < n && payload == Chunk(p, n, header.chunkIdx)
    }
  }

  ghost predicate Step(before: Table, e: Event, after: Table, out: Option<bytes>) {
    match e
    case Frame(addr, h, payload, now) =>
      exists victim :: Accepts(before, Key(addr, h.msgID), h, payload, now, victim, after, out)
    case Sweep(now) => after == Unexpired(before, now) && out == None
  }

  ghost predicate IsRun(states: seq<Table>, events: seq<Event>, outs: seq<Option<bytes>>) {
    && |states| == |events| + 1 && |outs| == |events|
    && forall i | 0 <= i < |events| :: Step(states[i], events[i], states[i + 1], outs[i])
  }

  /** The numbers of the pieces under `k` that have arrived. */
  function Got(events: seq<Event>, k: Key): set<nat> {
    if events == [] then {}
    else
      var last := events[|events| - 1];
      Got(events[..|events| - 1], k) + if last.IsFor(k) then {last.header.chunkIdx as nat} else {}
  }

  /** The packet under `k` was admitted and has been neither pushed out nor expired. */
  ghost predicate Survives(states: seq<Table>, events: seq<Event>, k: Key, n: nat)
    requires |states| == |events| + 1
  {
    forall i | 0 <= i <= |events| :: InProgress(Got(events[..i], k), n) ==> k in states[i]
  }

  ghost predicate InProgress(got: set<nat>, n: nat) {
    got != {} && got != Indices(n)
  }

  /** The entry under `k` holds the pieces in `got` and nothing else. */
  ghost predicate Tracks(table: Table, k: Key, p: bytes, n: nat, got: set<nat>) {
    if got == {} then k !in table
    else got != Indices(n) ==> k in table && Keeps(table[k], p, n, got)
  }

  ghost predicate Keeps(e: Entry, p: bytes, n: nat, got: set<nat>) {
    && |e.chunks| == n && e.total == n && e.received == |got|
    && forall i: nat | i < n :: e.chunks[i] == if i in got then Some(Chunk(p, n, i)) else None
  }

  lemma KeepsMore(e: Entry, p: bytes, n: nat, got: set<nat>, i: nat)
    requires Keeps(e, p, n, got) && got <= Indices(n) && i < n
    ensures e.HasRoom(i) <==> i !in got
    ensures i !in got ==> Keeps(e.With(i, Chunk(p, n, i)), p, n, got + {i})
    ensures i !in got ==> (e.received + 1 < n <==> got + {i} != Indices(n))
  {
    IndicesSize(n, got + {i});
  }

  lemma AllKept(e: Entry, p: bytes, n: nat)
    requires n > 0 && Keeps(e, p, n, Indices(n))
    ensures Flatten(Payloads(e.chunks)) == p
  {
    ChunksCoverPacket(p, n);
    assert Payloads(e.chunks) == ChunkList(p, n);
  }

  lemma StoreTracks(table: Table, k: Key, h: FrameHeader, p: bytes, n: nat, got: set<nat>)
    requires k in table && Keeps(table[k], p, n, got) && n > 0 && got <= Indices(n) && got != Indices(n)
    requires h.chunkIdx < n
    ensures var (after, out) := StoreChunk(table, k, h, Chunk(p, n, h.chunkIdx));
            var now := got + {h.chunkIdx as nat};
            && (now != Indices(n) ==> k in after && Keeps(after[k], p, n, now))
            && out == if now == Indices(n) then Some(p) else None
  {
    var i: nat, e := h.chunkIdx, table[k];
    KeepsMore(e, p, n, got, i);
    if i in got {
      assert got + {i} == got;
    } else if got + {i} == Indices(n) {
      AllKept(e.With(i, Chunk(p, n, i)), p, n);
    }
  }

  /** The first piece of a packet makes a new entry. */
  lemma FirstPieceTracks(before: Table, k: Key, h: FrameHeader, p: bytes, now: int, victim: Option<Key>,
                         after: Table, out: Option<bytes>, n: nat)
    requires 2 <= n <= MAX_FRAGMENT_CHUNKS && h.totalChunks == n && h.chunkIdx < n
    requires Accepts(before, k, h, Chunk(p, n, h.chunkIdx), now, victim, after, out) && k !in before && k in after
    ensures Tracks(after, k, p, n, {h.chunkIdx as nat}) && out == None
  {
    var room := if victim.Some? then before - {victim.value} else before;
    var entry := NewEntry(n, now);
    assert Keeps(entry, p, n, {});
    assert (after, out) == StoreChunk(room[k := entry], k, h, Chunk(p, n, h.chunkIdx));
    IndicesSize(n, {h.chunkIdx as nat});
    hide Accepts, StoreChunk, Keeps, Chunk;
    StoreTracks(room[k := entry], k, h, p, n, {});
    assert {} + {h.chunkIdx as nat} == {h.chunkIdx as nat};
  }

  /** Every further piece is stored in the entry. */
  lemma LaterPieceTracks(before: Table, k: Key, h: FrameHeader, p: bytes, now: int, victim: Option<Key>,
                         after: Table, out: Option<bytes>, n: nat, got: set<nat>)
    requires 2 <= n <= MAX_FRAGMENT_CHUNKS && h.totalChunks == n && h.chunkIdx < n
    requires Accepts(before, k, h, Chunk(p, n, h.chunkIdx), now, victim, after, out)
    requires k in before && Keeps(before[k], p, n, got) && InProgress(got, n) && got <= Indices(n)
    ensures var all := got + {h.chunkIdx as nat};
            Tracks(after, k, p, n, all) && out == if all == Indices(n) then Some(p) else None
  {
    assert (after, out) == StoreChunk(before, k, h, Chunk(p, n, h.chunkIdx)) by {
      hide Chunk, StoreChunk;
    }
    hide Accepts, StoreChunk, Keeps, Chunk;
    StoreTracks(before, k, h, p, n, got);
  }

  lemma StepTracks(before: Table, e: Event, after: Table, out: Option<bytes>, k: Key, p: bytes, n: nat, got: set<nat>)
    requires Step(before, e, after, out) && e.Carries(k, p, n) && 2 <= n <= MAX_FRAGMENT_CHUNKS
    requires Tracks(before, k, p, n, got) && got <= Indices(n) && got != Indices(n)
    requires var now := got + if e.IsFor(k) then {e.header.chunkIdx as nat} else {};
             InProgress(now, n) ==> k in after
    ensures var now := got + if e.IsFor(k) then {e.header.chunkIdx as nat} else {};
            && Tracks(after, k, p, n, now) && now <= Indices(n)
            && (e.IsFor(k) ==> out == if now == Indices(n) then Some(p) else None)
  {
    hide Chunk, Accepts, Keeps;
    if e.IsFor(k) {
      var i: nat := e.header.chunkIdx;
      var victim :| Accepts(before, k, e.header, e.payload, e.now, victim, after, out);
      IndicesSize(n, {i});
      if got == {} {
        assert got + {i} == {i};
        FirstPieceTracks(before, k, e.header, p, e.now, victim, after, out, n);
      } else {
        LaterPieceTracks(before, k, e.header, p, e.now, victim, after, out, n, got);
      }
    } else {
      OtherStepsKeep(before, e, after, out, k);
      assert got + {} == got;
    }
  }

  /** Frames of other packets and sweeps leave an entry alone or remove it. */
  lemma OtherStepsKeep(before: Table, e: Event, after: Table, out: Option<bytes>, k: Key)
    requires Step(before, e, after, out) && !e.IsFor(k)
    ensures k in after ==> k in before && after[k] == before[k]
  {
  }

  lemma {:induction false} GotBounded(events: seq<Event>, k: Key, p: bytes, n: nat)
    requires forall e | e in events :: e.Carries(k, p, n)
    ensures Got(events, k) <= Indices(n)
    decreases events
  {
    if events == [] {
    } else {
      GotBounded(events[..|events| - 1], k, p, n);
      assert events[|events| - 1].Carries(k, p, n);
    }
  }

  /** Every frame of a packet arrives as an event that carries its piece. */
  lemma SentFrameCarries(addr: string, p: bytes, n: nat, msgID: byte, pads: seq<bytes>, i: nat, now: int)
    requires MIN_FRAGMENT_CHUNKS <= n <= MAX_FRAGMENT_CHUNKS && i < n
    requires |pads| == n && forall j | 0 <= j < n :: |pads[j]| < 0x1_0000
    ensures var r := DecodeFrame(Frames(p, n, msgID, pads)[i]);
            && r.Decoded? && r.header.chunkIdx == i
            && var e := Frame(addr, r.header, r.payload, now);
               e.IsFor(Key(addr, msgID)) && e.Carries(Key(addr, msgID), p, n)
  {
    FramesDecode(p, n, msgID, pads, i);
  }

  /** Until a packet is complete its frames return nothing, whatever order they come in, however often
      they are repeated and whatever else arrives in between; the frame that brings the last missing
      piece returns exactly the packet. */
  lemma {:induction false} PacketComesBack(states: seq<Table>, events: seq<Event>, outs: seq<Option<bytes>>, k: Key,
      p: bytes, n: nat)
    requires IsRun(states, events, outs) && 2 <= n <= MAX_FRAGMENT_CHUNKS
    requires k !in states[0] && Survives(states, events, k, n)
    requires forall e | e in events :: e.Carries(k, p, n)
    requires events != [] ==> Got(events[..|events| - 1], k) != Indices(n)
    ensures Tracks(states[|events|], k, p, n, Got(events, k)) && Got(events, k) <= Indices(n)
    ensures events != [] && events[|events| - 1].IsFor(k) ==>
              outs[|events| - 1] == if Got(events, k) == Indices(n) then Some(p) else None
    decreases events
  {
    if events == [] {
    } else {
      var last := |events| - 1;
      var fewer := events[..last];
      GotBounded(fewer, k, p, n);
      assert forall i | 0 <= i <= last :: fewer[..i] == events[..i];
      PacketComesBack(states[..last + 1], fewer, outs[..last], k, p, n);
      assert events[..|events|] == events;
      StepTracks(states[last], events[last], states[last + 1], outs[last], k, p, n, Got(fewer, k));
    }
  }

  // ---- How long an entry lives ----

  /** What a step does to an entry that it leaves in the table, and why it takes one out. */
  ghost predicate Outlives(before: Table, e: Event, after: Table, out: Option<bytes>, k: Key) {
    && (k in before && k in after ==> after[k].deadline == before[k].deadline)
    && (k !in before && k in after ==> e.IsFor(k) && after[k].deadline == e.now + 8_000_000_000)
    && (k in before && e.Sweep? ==> (k in after <==> e.now <= before[k].deadline))
    && (k in before && k !in after && e.IsFor(k) ==> out.Some?)
    && (k in before && k !in after && e.Frame? && !e.IsFor(k) ==>
          |before| >= 4096 && forall j | j in before :: before[k].deadline <= before[j].deadline)
  }

  lemma StoreKeepsEnd(table: Table, k: Key, h: FrameHeader, payload: bytes)
    requires k in table
    ensures var (after, out) := StoreChunk(table, k, h, payload);
            if k in after then after[k].deadline == table[k].deadline else out.Some?
  {
    hide Payloads;
  }

  lemma OwnFrameOutlives(before: Table, e: Event, after: Table, out: Option<bytes>, k: Key)
    requires Step(before, e, after, out) && e.IsFor(k)
    ensures Outlives(before, e, after, out, k)
  {
    hide StoreChunk, From;
    var victim :| Accepts(before, k, e.header, e.payload, e.now, victim, after, out);
    if k in before {
      StoreKeepsEnd(before, k, e.header, e.payload);
    } else if after != before {
      var room := if victim.Some? then before - {victim.value} else before;
      StoreKeepsEnd(room[k := NewEntry(e.header.totalChunks, e.now)], k, e.header, e.payload);
    }
  }

  predicate SameAt(before: Table, after: Table, k: Key) {
    if k in before then k in after && after[k] == before[k] else k !in after
  }

  lemma StoreElsewhere(table: Table, k: Key, h: FrameHeader, payload: bytes, j: Key)
    requires k in table && j != k
    ensures SameAt(table, StoreChunk(table, k, h, payload).0, j)
  {
  }

  /** A frame of another packet leaves the entry alone, or it was an oldest one of a full table. */
  lemma OtherFrameKeepsOrEvicts(before: Table, own: Key, h: FrameHeader, payload: bytes, now: int, victim: Option<Key>,
      after: Table, out: Option<bytes>, k: Key)
    requires Accepts(before, own, h, payload, now, victim, after, out) && k != own
    ensures SameAt(before, after, k) || (k !in after && |before| >= MAX_REASSEMBLY && Oldest(before, k))
  {
    hide StoreChunk, From, NewEntry, Oldest;
    if own in before {
      StoreElsewhere(before, own, h, payload, k);
    } else if after != before {
      var room := if victim.Some? then before - {victim.value} else before;
      StoreElsewhere(room[own := NewEntry(h.totalChunks, now)], own, h, payload, k);
    }
  }

  lemma OtherFrameOutlives(before: Table, e: Event, after: Table, out: Option<bytes>, k: Key)
    requires Step(before, e, after, out) && e.Frame? && !e.IsFor(k)
    ensures Outlives(before, e, after, out, k)
  {
    var own := Key(e.addr, e.header.msgID);
    hide Accepts;
    var victim :| Accepts(before, own, e.header, e.payload, e.now, victim, after, out);
    OtherFrameKeepsOrEvicts(before, own, e.header, e.payload, e.now, victim, after, out, k);
  }

  /** Pieces do not prolong the eight seconds of an entry; sweeps take it out exactly when they have passed, and frames
      of other packets only when the table is full and no entry ends earlier. */
  lemma StepOutlives(before: Table, e: Event, after: Table, out: Option<bytes>, k: Key)
    requires Step(before, e, after, out)
    ensures Outlives(before, e, after, out, k)
  {
    if e.Frame? {
      if e.IsFor(k) {
        OwnFrameOutlives(before, e, after, out, k);
      } else {
        OtherFrameOutlives(before, e, after, out, k);
      }
      hide Outlives, Step;
    }
  }

  /** The first frame for `k` is event `a`; its source has room, the table is never full, and every later sweep comes
      within eight seconds. */
  ghost predicate Undisturbed(states: seq<Table>, events: seq<Event>, k: Key, a: nat) {
    && |states| == |events| + 1 && k !in states[0]
    && (forall i | 0 <= i < |events| && i < a :: !events[i].IsFor(k))
    && (forall i | 0 <= i < |states| :: |states[i]| < 4096)
    && (a < |events| ==> events[a].IsFor(k) && |From(states[a], k.addr)| < 8)
    && (forall i | a < i < |events| && events[i].Sweep? :: events[i].now <= events[a].now + 8_000_000_000)
  }

  lemma AdmittedWithRoom(before: Table, e: Event, after: Table, out: Option<bytes>, k: Key, p: bytes, n: nat)
    requires Step(before, e, after, out) && e.IsFor(k) && k !in before && |before| < 4096
    requires |From(before, k.addr)| < 8 && e.Carries(k, p, n) && 2 <= n <= MAX_FRAGMENT_CHUNKS
    ensures k in after
  {
  }

  /** The entry under `k` ends eight seconds after its first frame. */
  ghost predicate EndsInTime(table: Table, events: seq<Event>, k: Key, n: nat, a: nat) {
    InProgress(Got(events, k), n) ==>
      a < |events| && events[a].Frame? && k in table && table[k].deadline == events[a].now + 8_000_000_000
  }

  lemma {:induction false} NothingBefore(events: seq<Event>, k: Key)
    requires forall i | 0 <= i < |events| :: !events[i].IsFor(k)
    ensures Got(events, k) == {}
    decreases events
  {
    if events == [] {
    } else {
      NothingBefore(events[..|events| - 1], k);
    }
  }

  lemma StaysForNext(before: Table, e: Event, after: Table, out: Option<bytes>, k: Key, p: bytes, n: nat, got: set<nat>)
    requires Step(before, e, after, out) && e.Carries(k, p, n) && 2 <= n <= MAX_FRAGMENT_CHUNKS
    requires Tracks(before, k, p, n, got) && InProgress(got, n) && got <= Indices(n) && e.IsFor(k)
    requires got + {e.header.chunkIdx as nat} != Indices(n)
    ensures k in after
  {
    hide Accepts, Chunk, Keeps;
    var victim :| Accepts(before, k, e.header, e.payload, e.now, victim, after, out);
    LaterPieceTracks(before, k, e.header, p, e.now, victim, after, out, n, got);
  }

  ghost predicate SameEnd(before: Table, after: Table, k: Key) {
    k in before && k in after && after[k].deadline == before[k].deadline
  }

  lemma OtherStepEndsInTime(before: Table, e: Event, after: Table, out: Option<bytes>, k: Key)
    requires Step(before, e, after, out) && k in before && !e.IsFor(k) && |before| < 4096
    requires e.Sweep? ==> e.now <= before[k].deadline
    ensures SameEnd(before, after, k)
  {
    StepOutlives(before, e, after, out, k);
    hide Step;
  }

  lemma OwnStepEndsInTime(before: Table, e: Event, after: Table, out: Option<bytes>, k: Key, p: bytes, n: nat,
      got: set<nat>)
    requires Step(before, e, after, out) && e.Carries(k, p, n) && 2 <= n <= MAX_FRAGMENT_CHUNKS
    requires Tracks(before, k, p, n, got) && InProgress(got, n) && got <= Indices(n) && e.IsFor(k)
    requires got + {e.header.chunkIdx as nat} != Indices(n)
    ensures SameEnd(before, after, k)
  {
    StepOutlives(before, e, after, out, k);
    StaysForNext(before, e, after, out, k, p, n, got);
    hide Step, Keeps;
  }

  lemma FirstStepEndsInTime(before: Table, e: Event, after: Table, out: Option<bytes>, k: Key, p: bytes, n: nat)
    requires Step(before, e, after, out) && e.IsFor(k) && k !in before && |before| < 4096
    requires |From(before, k.addr)| < 8 && e.Carries(k, p, n) && 2 <= n <= MAX_FRAGMENT_CHUNKS
    ensures k in after && after[k].deadline == e.now + 8_000_000_000
  {
    StepOutlives(before, e, after, out, k);
    AdmittedWithRoom(before, e, after, out, k, p, n);
    hide Step;
  }

  lemma {:induction false} GotSomething(events: seq<Event>, k: Key, a: nat)
    requires a < |events| && events[a].IsFor(k)
    ensures Got(events, k) != {}
    decreases events
  {
    if a == |events| - 1 {
      assert events[a].header.chunkIdx as nat in Got(events, k);
    } else {
      GotSomething(events[..|events| - 1], k, a);
      var i :| i in Got(events[..|events| - 1], k);
      assert i in Got(events, k);
    }
  }

  lemma LastStepEndsInTime(before: Table, after: Table, out: Option<bytes>, events: seq<Event>, k: Key, p: bytes,
      n: nat, a: nat)
    requires events != [] && 2 <= n <= MAX_FRAGMENT_CHUNKS && a < |events| && events[a].IsFor(k)
    requires forall i | 0 <= i < a :: !events[i].IsFor(k)
    requires var e, got := events[|events| - 1], Got(events[..|events| - 1], k);
             && Step(before, e, after, out) && e.Carries(k, p, n) && |before| < 4096
             && (a == |events| - 1 ==> |From(before, k.addr)| < 8)
             && (a < |events| - 1 && e.Sweep? ==> e.now <= events[a].now + 8_000_000_000)
             && Tracks(before, k, p, n, got) && got <= Indices(n) && got != Indices(n)
             && EndsInTime(before, events[..|events| - 1], k, n, a)
    ensures EndsInTime(after, events, k, n, a)
  {
    hide Step, Keeps, From, Chunk;
    var fewer, e := events[..|events| - 1], events[|events| - 1];
    var got := Got(fewer, k);
    if InProgress(Got(events, k), n) {
      if a == |events| - 1 {
        NothingBefore(fewer, k);
        FirstStepEndsInTime(before, e, after, out, k, p, n);
      } else {
        GotSomething(fewer, k, a);
        if e.IsFor(k) {
          OwnStepEndsInTime(before, e, after, out, k, p, n, got);
        } else {
          assert Got(events, k) == got;
          OtherStepEndsInTime(before, e, after, out, k);
        }
      }
    }
  }

  lemma SurvivesOneMore(states: seq<Table>, events: seq<Event>, k: Key, n: nat)
    requires events != [] && |states| == |events| + 1
    requires Survives(states[..|events|], events[..|events| - 1], k, n)
    requires InProgress(Got(events, k), n) ==> k in states[|events|]
    ensures Survives(states, events, k, n)
  {
    var last := |events| - 1;
    forall i | 0 <= i <= |events| && InProgress(Got(events[..i], k), n) ensures k in states[i] {
      if i <= last {
        assert events[..last][..i] == events[..i];
        assert k in states[..last + 1][i];
      } else {
        assert events[..i] == events;
      }
    }
  }

  lemma UndisturbedBefore(states: seq<Table>, events: seq<Event>, k: Key, a: nat)
    requires events != [] && Undisturbed(states, events, k, a)
    ensures Undisturbed(states[..|events|], events[..|events| - 1], k, a)
  {
    hide From, Event.IsFor;
  }

  lemma SurvivesStep(states: seq<Table>, events: seq<Event>, outs: seq<Option<bytes>>, k: Key, p: bytes, n: nat, a: nat)
    requires events != [] && IsRun(states, events, outs) && 2 <= n <= MAX_FRAGMENT_CHUNKS
    requires Undisturbed(states, events, k, a) && events[|events| - 1].Carries(k, p, n)
    requires var last, fewer := |events| - 1, events[..|events| - 1];
             && Survives(states[..|events|], fewer, k, n) && EndsInTime(states[last], fewer, k, n, a)
             && Tracks(states[last], k, p, n, Got(fewer, k)) && Got(fewer, k) <= Indices(n)
             && Got(fewer, k) != Indices(n)
    ensures Survives(states, events, k, n) && EndsInTime(states[|events|], events, k, n, a)
  {
    hide Step, Tracks, Event.Carries, From, Event.IsFor, Survives;
    var last := |events| - 1;
    assert Step(states[last], events[last], states[last + 1], outs[last]);
    if a < |events| {
      LastStepEndsInTime(states[last], states[last + 1], outs[last], events, k, p, n, a);
    } else {
      NothingBefore(events, k);
    }
    SurvivesOneMore(states, events, k, n);
  }

  /** The entry of a packet survives if its first frame finds room for its source, the table is never full, and no sweep
      comes more than eight seconds after that frame; so the packet comes back with its last missing piece. */
  lemma {:induction false} SurvivesInTime(states: seq<Table>, events: seq<Event>, outs: seq<Option<bytes>>, k: Key,
      p: bytes, n: nat, a: nat)
    requires IsRun(states, events, outs) && 2 <= n <= MAX_FRAGMENT_CHUNKS && Undisturbed(states, events, k, a)
    requires forall e | e in events :: e.Carries(k, p, n)
    requires forall i | 0 <= i < |events| :: Got(events[..i], k) != Indices(n)
    ensures Survives(states, events, k, n) && EndsInTime(states[|events|], events, k, n, a)
    decreases events
  {
    hide Step, Tracks, EndsInTime, Survives, Undisturbed, Event.Carries;
    if events == [] {
      NothingYet(states, events, k, n, a);
    } else {
      var last := |events| - 1;
      var fewer := events[..last];
      UndisturbedBefore(states, events, k, a);
      assert forall i | 0 <= i < last :: fewer[..i] == events[..i];
      SurvivesInTime(states[..last + 1], fewer, outs[..last], k, p, n, a);
      assert fewer != [] ==> fewer[..|fewer| - 1] == events[..last - 1];
      NotYetAdmitted(states, events, k, a);
      PacketComesBack(states[..last + 1], fewer, outs[..last], k, p, n);
      SurvivesStep(states, events, outs, k, p, n, a);
    }
  }

  lemma NotYetAdmitted(states: seq<Table>, events: seq<Event>, k: Key, a: nat)
    requires events != [] && Undisturbed(states, events, k, a)
    ensures |states| == |events| + 1 && k !in states[..|events|][0]
  {
  }

  lemma NothingYet(states: seq<Table>, events: seq<Event>, k: Key, n: nat, a: nat)
    requires events == [] && |states| == 1
    ensures Survives(states, events, k, n) && EndsInTime(states[0], events, k, n, a)
  {
  }

  lemma LastBringsIt(events: seq<Event>, k: Key, n: nat)
    requires n >= 2 && Got(events, k) == Indices(n)
    requires forall i | 0 <= i < |events| :: Got(events[..i], k) != Indices(n)
    ensures events != [] && events[|events| - 1].IsFor(k) && Got(events[..|events| - 1], k) != Indices(n)
  {
    assert 0 in Indices(n);
  }

  /** In such a run the frame that brings the last missing piece returns exactly the packet. */
  lemma PacketArrives(states: seq<Table>, events: seq<Event>, outs: seq<Option<bytes>>, k: Key, p: bytes, n: nat,
      a: nat)
    requires IsRun(states, events, outs) && 2 <= n <= MAX_FRAGMENT_CHUNKS && Undisturbed(states, events, k, a)
    requires forall e | e in events :: e.Carries(k, p, n)
    requires forall i | 0 <= i < |events| :: Got(events[..i], k) != Indices(n)
    requires Got(events, k) == Indices(n)
    ensures events != [] && outs[|events| - 1] == Some(p)
  {
    hide IsRun, Survives, EndsInTime, Tracks, Event.Carries, Event.IsFor, Got, Indices, From;
    LastBringsIt(events, k, n);
    SurvivesInTime(states, events, outs, k, p, n, a);
    assert |states| == |events| + 1 && k !in states[0];
    hide Undisturbed;
    PacketComesBack(states, events, outs, k, p, n);
    assert |outs| == |events| by { SameLength(states, events, outs); }
  }

  lemma SameLength(states: seq<Table>, events: seq<Event>, outs: seq<Option<bytes>>)
    requires IsRun(states, events, outs)
    ensures |outs| == |events|
  {
    hide Step;
  }

  // ---- The caps ----

  ghost predicate SourceCapped(table: Table, addr: string) {
    |From(table, addr)| <= 8
  }

  ghost predicate Capped(table: Table) {
    |table| <= 4096 && forall addr :: SourceCapped(table, addr)
  }

  lemma DroppedIsCapped(table: Table, k: Key)
    requires Capped(table) && k in table
    ensures Capped(table - {k}) && |table - {k}| == |table| - 1
  {
    assert (table - {k}).Keys == table.Keys - {k};
    forall addr ensures SourceCapped(table - {k}, addr) {
      assert SourceCapped(table, addr);
      FromAfterDrop(table, k, addr);
    }
    hide From;
  }

  lemma ReplacedIsCapped(table: Table, k: Key, e: Entry)
    requires Capped(table) && k in table
    ensures Capped(table[k := e])
  {
    var after := table[k := e];
    assert after.Keys == table.Keys;
    forall addr ensures SourceCapped(after, addr) {
      assert SourceCapped(table, addr);
      FromAfterAdd(table, k, e, addr);
    }
    hide From;
  }

  lemma AdmittedIsCapped(table: Table, k: Key, e: Entry)
    requires Capped(table) && k !in table && |table| < 4096 && |From(table, k.addr)| < 8
    ensures Capped(table[k := e])
  {
    var after := table[k := e];
    assert after.Keys == table.Keys + {k};
    forall addr ensures SourceCapped(after, addr) {
      assert SourceCapped(table, addr);
      FromAfterAdd(table, k, e, addr);
    }
    hide From;
  }

  lemma StoredIsCapped(table: Table, k: Key, h: FrameHeader, payload: bytes)
    requires Capped(table) && k in table
    ensures Capped(StoreChunk(table, k, h, payload).0)
  {
    DroppedIsCapped(table, k);
    if table[k].HasRoom(h.chunkIdx) {
      ReplacedIsCapped(table, k, table[k].With(h.chunkIdx, payload));
    }
    hide Capped;
  }

  lemma SweptIsCapped(table: Table, now: int)
    requires Capped(table)
    ensures Capped(Unexpired(table, now))
  {
    var after := Unexpired(table, now);
    FewerKeys(after.Keys, table.Keys);
    forall addr ensures SourceCapped(after, addr) {
      assert SourceCapped(table, addr);
      FewerKeys(From(after, addr), From(table, addr));
    }
  }

  lemma {:induction false} FewerKeys(a: set<Key>, b: set<Key>)
    requires a <= b
    ensures |a| <= |b|
  {
    if a == {} {
    } else {
      var k :| k in a;
      FewerKeys(a - {k}, b - {k});
    }
  }

  lemma FrameKeepsCaps(before: Table, k: Key, h: FrameHeader, payload: bytes, now: int, victim: Option<Key>,
      after: Table, out: Option<bytes>)
    requires Capped(before) && Accepts(before, k, h, payload, now, victim, after, out)
    ensures Capped(after)
  {
    hide StoreChunk, From, SourceCapped;
    if k in before {
      StoredIsCapped(before, k, h, payload);
    } else if after != before {
      var room := if victim.Some? then before - {victim.value} else before;
      if victim.Some? {
        DroppedIsCapped(before, victim.value);
        FromAfterDrop(before, victim.value, k.addr);
      }
      AdmittedIsCapped(room, k, NewEntry(h.totalChunks, now));
      StoredIsCapped(room[k := NewEntry(h.totalChunks, now)], k, h, payload);
    }
  }

  /** On every run the table holds at most 4096 entries, at most eight of them from one source. */
  lemma {:induction false} RunKeepsCaps(states: seq<Table>, events: seq<Event>, outs: seq<Option<bytes>>, i: nat)
    requires IsRun(states, events, outs) && states[0] == map[] && i <= |events|
    ensures |states[i]| <= 4096 && (forall addr :: SourceCapped(states[i], addr))
  {
    if i == 0 {
      forall addr ensures SourceCapped(map[], addr) {
        assert From(map[], addr) == {};
      }
    } else {
      RunKeepsCaps(states, events, outs, i - 1);
      assert Step(states[i - 1], events[i - 1], states[i - 1 + 1], outs[i - 1]);
      assert Capped(states[i - 1]);
      hide Accepts, SourceCapped;
      match events[i - 1]
      case Frame(addr, h, payload, now) =>
        var k := Key(addr, h.msgID);
        var victim :| Accepts(states[i - 1], k, h, payload, now, victim, states[i], outs[i - 1]);
        FrameKeepsCaps(states[i - 1], k, h, payload, now, victim, states[i], outs[i - 1]);
      case Sweep(now) => SweptIsCapped(states[i - 1], now);
    }
  }

  /** A source that has eight entries gets no ninth one, and its frame changes nothing. */
  lemma NinthIsRefused(before: Table, e: Event, after: Table, out: Option<bytes>, k: Key)
    requires Step(before, e, after, out) && e.IsFor(k) && k !in before && |From(before, k.addr)| >= 8
    ensures after == before && out == None
  {
  }
}
