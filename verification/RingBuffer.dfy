/** The growing ring buffer of core/internal/congestion/bbr/ringbuffer.go. */
module RingBuffers {
  import opened Basics

  const INITIAL_RING_SIZE := 8

  /** The position that an index counted from the head wraps to. */
  function Wrap(head: nat, index: nat, length: nat): (p: nat)
    requires head < length && index < length
    ensures p < length
  {
    if head + index < length then head + index else head + index - length
  }

  lemma WrapIsRemainder(head: nat, index: nat, length: nat)
    requires head < length && index < length
    ensures Wrap(head, index, length) == (head + index) % length
  {
    UniqueModulus(head + index, if head + index < length then 0 else 1, Wrap(head, index, length), length);
  }

  /** The elements held by `slots` when the first one is at `head` and there are `len` of them. */
  function View<T>(slots: seq<T>, head: nat, len: nat): seq<T>
    requires len <= |slots| && (len > 0 ==> head < |slots|)
  {
    seq(len, j requires 0 <= j < len => slots[Wrap(head, j, |slots|)])
  }

  lemma ViewPush<T>(slots: seq<T>, head: nat, n: nat, t: T)
    requires n < |slots| && head < |slots|
    ensures View(slots[Wrap(head, n, |slots|) := t], head, n + 1) == View(slots, head, n) + [t]
  {
  }

  /** A ring of slots that doubles when full; `contents` lists its elements from front to back. */
  class RingBuffer<T> {
    var ring: array<T>
    var headPos: nat
    var tailPos: nat
    var full: bool
    const zero: T
    ghost var contents: seq<T>

    ghost predicate Valid()
      reads this, ring
    {
      && (ring.Length == 0 ==> headPos == 0 && tailPos == 0 && !full)
      && (ring.Length != 0 ==> headPos < ring.Length && tailPos < ring.Length)
      && (full ==> headPos == tailPos)
      && |contents| == (if full then ring.Length
                        else if tailPos >= headPos then tailPos - headPos
                        else tailPos - headPos + ring.Length)
      && contents == View(ring[..], headPos, |contents|)
    }

    /** Starts without any slots: the requested size is ignored, and rings grow on demand. */
    constructor (size: int, zero: T)
      ensures Valid() && fresh(ring) && contents == [] && this.zero == zero
    {
      ring := new T[0];
      headPos, tailPos, full := 0, 0, false;
      this.zero := zero;
      contents := [];
    }

    function Len(): (n: nat)
      requires Valid()
      reads this, ring
      ensures n == |contents| <= ring.Length
    {
      if full then ring.Length
      else if tailPos >= headPos then tailPos - headPos
      else tailPos - headPos + ring.Length
    }

    predicate Empty()
      requires Valid()
      reads this, ring
      ensures Empty() <==> contents == []
    {
      !full && headPos == tailPos
    }

    method PushBack(t: T)
      requires Valid()
      modifies this, ring
      ensures Valid() && (ring == old(ring) || fresh(ring))
      ensures contents == old(contents) + [t]
    {
      if full || ring.Length == 0 {
        Grow();
      }
      Place(t);
    }

    /** Fills the slot behind the last element. */
    method Place(t: T)
      requires Valid() && !full && ring.Length != 0
      modifies `tailPos, `full, `contents, ring
      ensures Valid() && contents == old(contents) + [t]
    {
      ghost var n, slots := Len(), ring[..];
      assert tailPos == Wrap(headPos, n, |slots|);
      ViewPush(slots, headPos, n, t);
      hide View, Wrap;
      ring[tailPos] := t;
      assert ring[..] == slots[tailPos := t];
      tailPos := tailPos + 1;
      if tailPos == ring.Length {
        tailPos := 0;
      }
      if tailPos == headPos {
        full := true;
      }
      contents := contents + [t];
    }

    /** The source panics on an empty ring, so callers check first. */
    method PopFront() returns (t: T)
      requires Valid() && contents != []
      modifies this, ring
      ensures Valid() && ring == old(ring)
      ensures t == old(contents)[0] && contents == old(contents)[1..]
    {
      full := false;
      t := ring[headPos];
      ring[headPos] := zero;
      headPos := headPos + 1;
      if headPos == ring.Length {
        headPos := 0;
      }
      contents := contents[1..];
    }

    function Offset(index: nat): (t: T)
      requires Valid() && index < |contents|
      reads this, ring
      ensures t == contents[index]
    {
      ring[Wrap(headPos, index, ring.Length)]
    }

    /** Writes through the pointer that Offset hands out in the source. */
    method Store(index: nat, t: T)
      requires Valid() && index < |contents|
      modifies ring, `contents
      ensures Valid() && contents == old(contents)[index := t]
    {
      ring[Wrap(headPos, index, ring.Length)] := t;
      contents := contents[index := t];
    }

    function Front(): (t: T)
      requires Valid() && contents != []
      reads this, ring
      ensures t == contents[0]
    {
      ring[headPos]
    }

    function Back(): (t: T)
      requires Valid() && contents != []
      reads this, ring
      ensures t == contents[|contents| - 1]
    {
      Offset(Len() - 1)
    }

    /** Doubles the slots and moves the elements to the front; the source calls it on a full ring only. */
    method Grow()
      requires Valid() && (full || ring.Length == 0)
      modifies this
      ensures Valid() && fresh(ring) && !full && ring.Length > 0
      ensures contents == old(contents)
      ensures ring.Length == if old(ring.Length) == 0 then INITIAL_RING_SIZE else 2 * old(ring.Length)
    {
      var oldRing := ring;
      var newSize := oldRing.Length * 2;
      if newSize == 0 {
        newSize := INITIAL_RING_SIZE;
      }
      var z := zero;
      ring := new T[newSize](_ => z);
      var headLen := oldRing.Length - headPos;
      forall i | 0 <= i < headLen {
        ring[i] := oldRing[headPos + i];
      }
      forall i | 0 <= i < headPos {
        ring[headLen + i] := oldRing[i];
      }
      headPos, tailPos, full := 0, oldRing.Length, false;
    }

    method Clear()
      requires Valid()
      modifies this, ring
      ensures Valid() && ring == old(ring) && contents == []
    {
      forall i | 0 <= i < ring.Length {
        ring[i] := zero;
      }
      headPos, tailPos, full := 0, 0, false;
      contents := [];
    }
  }
}
