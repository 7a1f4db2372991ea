/** Lists of slots that fill up one by one, and sets of slot numbers. */
module Slots {
  import opened Basics

  function Filled<T>(slots: seq<Option<T>>): nat {
    if slots == [] then 0 else (if slots[0].Some? then 1 else 0) + Filled(slots[1..])
  }

  lemma {:induction false} FilledConcat<T>(a: seq<Option<T>>, b: seq<Option<T>>)
    ensures Filled(a + b) == Filled(a) + Filled(b)
  {
    if a == [] {
      assert a + b == b;
    } else {
      FilledConcat(a[1..], b);
      assert (a + b)[1..] == a[1..] + b;
    }
  }

  lemma {:induction false} FilledBounds<T>(slots: seq<Option<T>>)
    ensures Filled(slots) <= |slots|
    ensures Filled(slots) == |slots| <==> forall i | 0 <= i < |slots| :: slots[i].Some?
    ensures Filled(slots) == 0 <==> forall i | 0 <= i < |slots| :: slots[i].None?
  {
    if slots == [] {
    } else {
      FilledBounds(slots[1..]);
      assert forall i | 1 <= i < |slots| :: slots[i] == slots[1..][i - 1];
      assert forall i | 0 <= i < |slots| - 1 :: slots[1..][i] == slots[i + 1];
    }
  }

  /** Filling a free slot adds one to the count. */
  lemma FilledOneMore<T>(slots: seq<Option<T>>, k: nat, value: T)
    requires k < |slots| && slots[k].None?
    ensures Filled(slots[k := Some(value)]) == Filled(slots) + 1
  {
    var after := slots[..k] + [Some(value)] + slots[k + 1..];
    assert slots == slots[..k] + [slots[k]] + slots[k + 1..] && slots[k := Some(value)] == after;
    FilledConcat(slots[..k] + [slots[k]], slots[k + 1..]);
    FilledConcat(slots[..k], [slots[k]]);
    FilledConcat(slots[..k] + [Some(value)], slots[k + 1..]);
    FilledConcat(slots[..k], [Some(value)]);
  }

  lemma {:induction false} FilledDependsOnPresence<T>(a: seq<Option<T>>, b: seq<Option<T>>)
    requires |a| == |b| && forall i | 0 <= i < |a| :: a[i].Some? <==> b[i].Some?
    ensures Filled(a) == Filled(b)
  {
    if a == [] {
    } else {
      FilledDependsOnPresence(a[1..], b[1..]);
    }
  }

  ghost function Indices(n: nat): (indices: set<nat>)
    ensures forall i: nat :: i in indices <==> i < n
  {
    if n == 0 then {} else Indices(n - 1) + {n - 1}
  }

  lemma {:induction false} IndicesSize(n: nat, some: set<nat>)
    requires some <= Indices(n)
    ensures |some| <= n && (|some| == n <==> some == Indices(n))
  {
    if n == 0 {
    } else {
      IndicesSize(n - 1, some - {n - 1});
      assert n - 1 in some ==> some == (some - {n - 1}) + {n - 1};
    }
  }
}
