/** Shared value types, constants and arithmetic. */
module Basics {

  datatype Option<+T> = None | Some(value: T)

  /** A byte is kept as an integer below 256, so that shifts read as multiplication and division. */
  type byte = b: int | 0 <= b < 256

  type bytes = seq<byte>

  /** Times and durations are in nanoseconds. */
  const SECOND: nat := 1_000_000_000

  /** No packet number. */
  const INVALID_PACKET_NUMBER := -1

  function Min(a: int, b: int): int {
    if a <= b then a else b
  }

  function Max(a: int, b: int): int {
    if a >= b then a else b
  }

  /** Joins a sequence of sequences in order. */
  function Flatten<T>(parts: seq<seq<T>>): seq<T> {
    if parts == [] then [] else parts[0] + Flatten(parts[1..])
  }

  lemma AppendAssoc<T>(a: seq<T>, b: seq<T>, c: seq<T>)
    ensures a + (b + c) == (a + b) + c
  {
  }

  lemma {:induction false} FlattenConcat<T>(a: seq<seq<T>>, b: seq<seq<T>>)
    ensures Flatten(a + b) == Flatten(a) + Flatten(b)
  {
    if a == [] {
      assert a + b == b;
    } else {
      FlattenConcat(a[1..], b);
      assert (a + b)[0] == a[0] && (a + b)[1..] == a[1..] + b;
      AppendAssoc(a[0], Flatten(a[1..]), Flatten(b));
    }
  }

  lemma TakePart(done: bytes, parts: seq<bytes>, i: nat)
    requires i < |parts|
    ensures done + Flatten(parts[i..]) == (done + parts[i]) + Flatten(parts[i + 1..])
  {
    assert parts[i..][0] == parts[i] && parts[i..][1..] == parts[i + 1..];
  }

  /** Copies `s` to `b[at..]`. */
  method Put(b: array<byte>, at: nat, s: bytes)
    requires at + |s| <= b.Length
    modifies b
    ensures b[..at + |s|] == old(b[..at]) + s
    ensures forall k | at + |s| <= k < b.Length :: b[k] == old(b[k])
  {
    forall k | 0 <= k < |s| {
      b[at + k] := s[k];
    }
  }

  // Products and quotients

  lemma Distribute(x: int, y: int, z: int)
    ensures (x + y) * z == x * z + y * z
  {
  }

  lemma UniqueModulus(n: nat, a: nat, r: nat, d: nat)
    requires r < d && n == a * d + r
    ensures n % d == r
  {
    Distribute(a - n / d, n / d, d);
    SmallMultiple(a - n / d, d);
  }

  lemma SmallMultiple(x: int, d: int)
    requires d >= 0
    ensures x >= 1 ==> x * d >= d
    ensures x <= -1 ==> x * d <= -d
  {
    if x >= 1 {
      Distribute(x - 1, 1, d);
    } else {
      Distribute(x + 1, -1, d);
      assert (x + 1) * d == -((-x - 1) * d);
    }
  }

  lemma DivideAndMultiply(n: nat, unit: nat)
    requires unit > 0
    ensures n == n / unit * unit + n % unit
  {
  }
}
