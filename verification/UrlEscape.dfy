/** Percent-encoding of URL components, section 2.1 of RFC 3986. */
module UrlEscape {
  import opened Basics

  const SPACE: byte := 0x20
  const PERCENT: byte := 0x25
  const AMPERSAND: byte := 0x26
  const PLUS: byte := 0x2B
  const SEMICOLON: byte := 0x3B
  const EQUALS: byte := 0x3D
  const ESCAPED_PERCENT: bytes := [0x25, 0x32, 0x35]

  datatype Mode = Path | PathSegment | Host | Zone | UserPassword | QueryComponent | Fragment

  datatype Error = EscapeError(text: bytes) | InvalidHostError(text: bytes) | SemicolonError

  datatype Result = Ok(value: bytes) | Err(error: Error)

  // ---- Bytes ----

  predicate IsDigit(c: byte) { 0x30 <= c <= 0x39 }

  predicate IsLower(c: byte) { 0x61 <= c <= 0x7A }

  predicate IsUpper(c: byte) { 0x41 <= c <= 0x5A }

  predicate IsHex(c: byte) {
    IsDigit(c) || 0x61 <= c <= 0x66 || 0x41 <= c <= 0x46
  }

  function Unhex(c: byte): (d: byte)
    ensures d < 16
  {
    if IsDigit(c) then c - 0x30
    else if 0x61 <= c <= 0x66 then c - 0x61 + 10
    else if 0x41 <= c <= 0x46 then c - 0x41 + 10
    else 0
  }

  function UpperHex(d: byte): (c: byte)
    requires d < 16
    ensures IsHex(c) && Unhex(c) == d
    ensures IsDigit(c) || IsUpper(c)
  {
    if d < 10 then 0x30 + d else 0x41 + (d - 10)
  }

  /** ! $ & ' ( ) * + , ; = : [ ] < > " */
  predicate AllowedInHost(c: byte) {
    c in {0x21, 0x24, 0x26, 0x27, 0x28, 0x29, 0x2A, 0x2B, 0x2C, 0x3B, 0x3D, 0x3A, 0x5B, 0x5D, 0x3C, 0x3E, 0x22}
  }

  /** - _ . ~ */
  predicate IsMark(c: byte) {
    c in {0x2D, 0x5F, 0x2E, 0x7E}
  }

  /** $ & + , / : ; = ? @ */
  predicate IsReserved(c: byte) {
    c in {0x24, 0x26, 0x2B, 0x2C, 0x2F, 0x3A, 0x3B, 0x3D, 0x3F, 0x40}
  }

  predicate ShouldEscape(c: byte, mode: Mode) {
    if IsLower(c) || IsUpper(c) || IsDigit(c) then false
    else if (mode == Host || mode == Zone) && AllowedInHost(c) then false
    else if IsMark(c) then false
    else if IsReserved(c) && mode == Path then c == 0x3F                              // ?
    else if IsReserved(c) && mode == PathSegment then c in {0x2F, 0x3B, 0x2C, 0x3F}   // / ; , ?
    else if IsReserved(c) && mode == UserPassword then c in {0x40, 0x2F, 0x3F, 0x3A}  // @ / ? :
    else if IsReserved(c) && mode == QueryComponent then true
    else if IsReserved(c) && mode == Fragment then false
    else if mode == Fragment && c in {0x21, 0x28, 0x29, 0x2A} then false              // ! ( ) *
    else true
  }

  // ---- Escaping ----

  predicate NeedsHex(c: byte, mode: Mode) {
    ShouldEscape(c, mode) && !(c == SPACE && mode == QueryComponent)
  }

  function EscapeByte(c: byte, mode: Mode): (e: bytes)
    ensures |e| == if NeedsHex(c, mode) then 3 else 1
  {
    if c == SPACE && mode == QueryComponent then [PLUS]
    else if ShouldEscape(c, mode) then [PERCENT, UpperHex(c / 16), UpperHex(c % 16)]
    else [c]
  }

  function Escaped(s: bytes, mode: Mode): bytes {
    if s == [] then [] else EscapeByte(s[0], mode) + Escaped(s[1..], mode)
  }

  /** How many bytes become three. */
  function HexCount(s: bytes, mode: Mode): nat {
    if s == [] then 0 else (if NeedsHex(s[0], mode) then 1 else 0) + HexCount(s[1..], mode)
  }

  /** The length computed beforehand is exactly what the escaped text needs. */
  lemma {:induction false} EscapedLength(s: bytes, mode: Mode)
    ensures |Escaped(s, mode)| == |s| + 2 * HexCount(s, mode)
  {
    if s == [] {
    } else {
      EscapedLength(s[1..], mode);
    }
  }

  lemma EscapedFrom(s: bytes, i: nat, mode: Mode)
    requires i <= |s|
    ensures i == 0 ==> s[i..] == s
    ensures Escaped(s[i..], mode) == if i == |s| then [] else EscapeByte(s[i], mode) + Escaped(s[i + 1..], mode)
    ensures HexCount(s[i..], mode) ==
            if i == |s| then 0 else (if NeedsHex(s[i], mode) then 1 else 0) + HexCount(s[i + 1..], mode)
  {
    if i < |s| {
      assert s[i..][1..] == s[i + 1..];
    }
  }

  method CountEscapes(s: bytes, mode: Mode) returns (spaceCount: nat, hexCount: nat)
    ensures hexCount == HexCount(s, mode)
    ensures spaceCount > 0 ==> mode == QueryComponent
    ensures spaceCount == 0 && hexCount == 0 ==> forall k :: 0 <= k < |s| ==> !ShouldEscape(s[k], mode)
    ensures hexCount == 0 ==> forall k :: 0 <= k < |s| ==> !NeedsHex(s[k], mode)
  {
    hide ShouldEscape, Escaped, HexCount;
    spaceCount, hexCount := 0, 0;
    EscapedFrom(s, 0, mode);
    for i := 0 to |s|
      invariant HexCount(s, mode) == hexCount + HexCount(s[i..], mode)
      invariant spaceCount > 0 ==> mode == QueryComponent
      invariant spaceCount == 0 && hexCount == 0 ==> forall k :: 0 <= k < i ==> !ShouldEscape(s[k], mode)
      invariant hexCount == 0 ==> forall k :: 0 <= k < i ==> !NeedsHex(s[k], mode)
    {
      EscapedFrom(s, i, mode);
      if ShouldEscape(s[i], mode) {
        if s[i] == SPACE && mode == QueryComponent {
          spaceCount := spaceCount + 1;
        } else {
          hexCount := hexCount + 1;
        }
      }
    }
    EscapedFrom(s, |s|, mode);
  }

  lemma {:induction false} NothingToEscape(s: bytes, mode: Mode)
    requires forall k :: 0 <= k < |s| ==> !ShouldEscape(s[k], mode)
    ensures Escaped(s, mode) == s
  {
    if s == [] {
    } else {
      assert ShouldEscape(SPACE, QueryComponent);
      NothingToEscape(s[1..], mode);
    }
  }

  /** The escaped text, written into a buffer of exactly its length. */
  method Escape(s: bytes, mode: Mode) returns (r: bytes)
    ensures r == Escaped(s, mode)
  {
    var spaceCount, hexCount := CountEscapes(s, mode);
    if spaceCount == 0 && hexCount == 0 {
      NothingToEscape(s, mode);
      return s;
    }
    EscapedLength(s, mode);
    var required := |s| + 2 * hexCount;
    var t := new byte[required];
    if hexCount == 0 {
      forall i | 0 <= i < |s| {
        t[i] := if s[i] == SPACE then PLUS else s[i];
      }
      OnlySpaces(s, t[..], mode);
      return t[..];
    }
    FillEscaped(s, mode, t);
    return t[..];
  }

  lemma {:induction false} OnlySpaces(s: bytes, t: bytes, mode: Mode)
    requires |t| == |s|
    requires forall k :: 0 <= k < |s| ==> t[k] == if s[k] == SPACE then PLUS else s[k]
    requires forall k :: 0 <= k < |s| ==> !NeedsHex(s[k], mode)
    ensures t == Escaped(s, mode)
  {
    if s == [] {
    } else {
      assert s[0] == SPACE ==> ShouldEscape(s[0], mode);
      OnlySpaces(s[1..], t[1..], mode);
    }
  }

  method FillEscaped(s: bytes, mode: Mode, t: array<byte>)
    requires t.Length == |Escaped(s, mode)|
    modifies t
    ensures t[..] == Escaped(s, mode)
  {
    hide ShouldEscape, EscapeByte, Escaped;
    var j: nat := 0;
    EscapedFrom(s, 0, mode);
    for i := 0 to |s|
      invariant j <= t.Length
      invariant Escaped(s, mode) == t[..j] + Escaped(s[i..], mode)
    {
      EscapedFrom(s, i, mode);
      AppendAssoc(t[..j], EscapeByte(s[i], mode), Escaped(s[i + 1..], mode));
      j := PutEscaped(s[i], mode, t, j);
    }
    EscapedFrom(s, |s|, mode);
    assert t[..j] == t[..];
  }

  method PutEscaped(c: byte, mode: Mode, t: array<byte>, j: nat) returns (next: nat)
    requires j + |EscapeByte(c, mode)| <= t.Length
    modifies t
    ensures next == j + |EscapeByte(c, mode)|
    ensures t[..next] == old(t[..j]) + EscapeByte(c, mode)
  {
    if c == SPACE && mode == QueryComponent {
      t[j] := PLUS;
      next := j + 1;
    } else if ShouldEscape(c, mode) {
      t[j], t[j + 1], t[j + 2] := PERCENT, UpperHex(c / 16), UpperHex(c % 16);
      next := j + 3;
    } else {
      t[j] := c;
      next := j + 1;
    }
  }

  // ---- Unescaping ----

  predicate IsEscape(s: bytes) {
    |s| >= 3 && s[0] == PERCENT && IsHex(s[1]) && IsHex(s[2])
  }

  function EscapeValue(s: bytes): byte
    requires IsEscape(s)
  {
    Unhex(s[1]) * 16 + Unhex(s[2])
  }

  /** What is wrong at the front of the text. */
  function FrontError(s: bytes, mode: Mode): Option<Error>
    requires s != []
  {
    if s[0] == PERCENT then
      if !IsEscape(s) then Some(EscapeError(s[..Min(3, |s|)]))
      else if mode == Host && Unhex(s[1]) < 8 && s[..3] != ESCAPED_PERCENT then Some(EscapeError(s[..3]))
      else if mode == Zone && s[..3] != ESCAPED_PERCENT && EscapeValue(s) != SPACE && ShouldEscape(EscapeValue(s), Host)
        then Some(EscapeError(s[..3]))
      else None
    else if s[0] == PLUS then None
    else if (mode == Host || mode == Zone) && s[0] < 0x80 && ShouldEscape(s[0], mode)
        then Some(InvalidHostError(s[..1]))
    else None
  }

  /** How many bytes the unit at the front takes, and what it stands for. */
  function FrontLength(s: bytes): (n: nat)
    requires s != []
    ensures 1 <= n <= |s|
  {
    if IsEscape(s) then 3 else 1
  }

  function FrontByte(s: bytes, mode: Mode): byte
    requires s != []
  {
    if IsEscape(s) then EscapeValue(s)
    else if s[0] == PLUS && mode == QueryComponent then SPACE
    else s[0]
  }

  /** The first thing wrong with a text, if anything is. */
  function FirstError(s: bytes, mode: Mode): Option<Error>
    decreases |s|
  {
    if s == [] then None
    else if FrontError(s, mode).Some? then FrontError(s, mode)
    else FirstError(s[FrontLength(s)..], mode)
  }

  function Decoded(s: bytes, mode: Mode): bytes
    decreases |s|
  {
    if s == [] then [] else [FrontByte(s, mode)] + Decoded(s[FrontLength(s)..], mode)
  }

  function Unescaped(s: bytes, mode: Mode): Result {
    match FirstError(s, mode)
    case Some(e) => Err(e)
    case None => Ok(Decoded(s, mode))
  }

  lemma UnescapedFrom(s: bytes, i: nat, mode: Mode)
    requires i <= |s|
    ensures i == 0 ==> s[i..] == s
    ensures i == |s| ==> FirstError(s[i..], mode) == None && Decoded(s[i..], mode) == []
    ensures i < |s| && FrontError(s[i..], mode).Some? ==> FirstError(s[i..], mode) == FrontError(s[i..], mode)
    ensures i < |s| && FrontError(s[i..], mode).None? ==>
              var next := i + FrontLength(s[i..]);
              && FirstError(s[i..], mode) == FirstError(s[next..], mode)
              && Decoded(s[i..], mode) == [FrontByte(s[i..], mode)] + Decoded(s[next..], mode)
  {
    if i < |s| {
      assert s[i..][FrontLength(s[i..])..] == s[i + FrontLength(s[i..])..];
    }
  }

  predicate StandsForItself(c: byte, mode: Mode) {
    c != PERCENT && !(c == PLUS && mode == QueryComponent)
  }

  lemma {:induction false} NothingToDecode(s: bytes, mode: Mode)
    requires forall k :: 0 <= k < |s| ==> StandsForItself(s[k], mode)
    ensures Decoded(s, mode) == s
  {
    if s == [] {
    } else {
      NothingToDecode(s[1..], mode);
    }
  }

  method CheckFront(s: bytes, i: nat, mode: Mode) returns (e: Option<Error>)
    requires i < |s|
    ensures e == FrontError(s[i..], mode)
  {
    hide ShouldEscape, IsHex, Unhex;
    if s[i] == PERCENT {
      if i + 2 >= |s| || !IsHex(s[i + 1]) || !IsHex(s[i + 2]) {
        var text := s[i..];
        if |text| > 3 {
          text := text[..3];
        }
        assert text == s[i..][..Min(3, |s[i..]|)];
        return Some(EscapeError(text));
      }
      assert s[i..i + 3] == s[i..][..3];
      if mode == Host && Unhex(s[i + 1]) < 8 && s[i..i + 3] != ESCAPED_PERCENT {
        return Some(EscapeError(s[i..i + 3]));
      }
      if mode == Zone {
        var v := Unhex(s[i + 1]) * 16 + Unhex(s[i + 2]);
        if s[i..i + 3] != ESCAPED_PERCENT && v != SPACE && ShouldEscape(v, Host) {
          return Some(EscapeError(s[i..i + 3]));
        }
      }
    } else if s[i] != PLUS {
      assert s[i..i + 1] == s[i..][..1];
      if (mode == Host || mode == Zone) && s[i] < 0x80 && ShouldEscape(s[i], mode) {
        return Some(InvalidHostError(s[i..i + 1]));
      }
    }
    return None;
  }

  method Unescape(s: bytes, mode: Mode) returns (r: Result)
    ensures r == Unescaped(s, mode)
  {
    hide FirstError, Decoded;
    var n: nat, hasPlus, i := 0, false, 0;
    UnescapedFrom(s, 0, mode);
    while i < |s|
      invariant 0 <= i <= |s|
      invariant FirstError(s, mode) == FirstError(s[i..], mode)
      invariant hasPlus ==> mode == QueryComponent
      invariant n == 0 && !hasPlus ==> forall k :: 0 <= k < i ==> StandsForItself(s[k], mode)
    {
      UnescapedFrom(s, i, mode);
      var e := CheckFront(s, i, mode);
      if e.Some? {
        return Err(e.value);
      }
      FrontUnit(s[i..], mode);
      hide IsEscape, FrontError, FrontLength;
      if s[i] == PERCENT {
        n := n + 1;
        i := i + 3;
      } else {
        if s[i] == PLUS {
          hasPlus := mode == QueryComponent;
        }
        i := i + 1;
      }
    }
    UnescapedFrom(s, |s|, mode);
    if n == 0 && !hasPlus {
      NothingToDecode(s, mode);
      return Ok(s);
    }
    var t := Decode(s, mode);
    return Ok(t);
  }

  lemma FrontUnit(s: bytes, mode: Mode)
    requires s != [] && FrontError(s, mode) == None
    ensures FrontLength(s) == if s[0] == PERCENT then 3 else 1
    ensures s[0] == PERCENT ==> |s| >= 3 && FrontByte(s, mode) == Unhex(s[1]) * 16 + Unhex(s[2])
    ensures s[0] != PERCENT ==> FrontByte(s, mode) == if s[0] == PLUS && mode == QueryComponent then SPACE else s[0]
  {
  }

  lemma DecodeOneMore(t: bytes, s: bytes, i: nat, mode: Mode)
    requires i < |s| && FirstError(s[i..], mode) == None
    ensures s[i] == PERCENT ==>
              && i + 3 <= |s| && FirstError(s[i + 3..], mode) == None
              && t + Decoded(s[i..], mode) == (t + [Unhex(s[i + 1]) * 16 + Unhex(s[i + 2])]) + Decoded(s[i + 3..], mode)
    ensures s[i] != PERCENT ==>
              && FirstError(s[i + 1..], mode) == None
              && t + Decoded(s[i..], mode) ==
                 (t + [if s[i] == PLUS && mode == QueryComponent then SPACE else s[i]]) + Decoded(s[i + 1..], mode)
  {
    UnescapedFrom(s, i, mode);
    FrontUnit(s[i..], mode);
    hide Decoded, FirstError, FrontError, FrontByte, FrontLength, IsEscape, Unhex;
    AppendAssoc(t, [FrontByte(s[i..], mode)], Decoded(s[i + FrontLength(s[i..])..], mode));
  }

  method Decode(s: bytes, mode: Mode) returns (t: bytes)
    requires FirstError(s, mode) == None
    ensures t == Decoded(s, mode)
  {
    hide Decoded, FirstError, Unhex;
    t := [];
    var i := 0;
    UnescapedFrom(s, 0, mode);
    while i < |s|
      invariant 0 <= i <= |s|
      invariant FirstError(s[i..], mode) == None
      invariant Decoded(s, mode) == t + Decoded(s[i..], mode)
    {
      DecodeOneMore(t, s, i, mode);
      if s[i] == PERCENT {
        t := t + [Unhex(s[i + 1]) * 16 + Unhex(s[i + 2])];
        i := i + 3;
      } else if s[i] == PLUS {
        t := t + [if mode == QueryComponent then SPACE else PLUS];
        i := i + 1;
      } else {
        t := t + [s[i]];
        i := i + 1;
      }
    }
    UnescapedFrom(s, |s|, mode);
  }

  // ---- The round trip ----

  /** Whether an escaped byte is accepted back: always, except in host names, where an escape may only stand for a
      byte outside ASCII or a percent sign, and in zone identifiers, where it may only stand for a space or a
      percent sign. */
  predicate ComesBack(c: byte, mode: Mode) {
    || !ShouldEscape(c, mode)
    || (mode != Host && mode != Zone)
    || c == PERCENT
    || (mode == Host && c >= 0x80)
    || (mode == Zone && c == SPACE)
  }

  lemma EscapeByteComesBack(c: byte, t: bytes, mode: Mode)
    ensures var s := EscapeByte(c, mode) + t;
            if ComesBack(c, mode) then
              && FrontError(s, mode) == None && FrontByte(s, mode) == c
              && FrontLength(s) == |EscapeByte(c, mode)|
            else FrontError(s, mode).Some?
  {
    var s := EscapeByte(c, mode) + t;
    if ShouldEscape(c, mode) && !(c == SPACE && mode == QueryComponent) {
      assert s[..3] == EscapeByte(c, mode);
      assert EscapeValue(s) == c;
      assert s[..3] == ESCAPED_PERCENT <==> c == PERCENT;
    }
  }

  /** Escaping and unescaping gives the text back, in every mode, exactly when each of its bytes comes back. */
  lemma {:induction false} EscapeRoundTrip(s: bytes, mode: Mode)
    ensures Unescaped(Escaped(s, mode), mode) == Ok(s) <==> forall c :: c in s ==> ComesBack(c, mode)
    ensures Unescaped(Escaped(s, mode), mode).Ok? <==> forall c :: c in s ==> ComesBack(c, mode)
  {
    hide EscapeByte, FrontError, FrontLength, FrontByte, ComesBack;
    if s != [] {
      var rest := Escaped(s[1..], mode);
      EscapeByteComesBack(s[0], rest, mode);
      EscapeRoundTrip(s[1..], mode);
      var e := Escaped(s, mode);
      assert FrontError(e, mode) == None ==> e[FrontLength(e)..] == rest;
      forall c ensures c in s <==> c == s[0] || c in s[1..] {}
      assert s == [s[0]] + s[1..];
    }
  }

  /** In query mode every text comes back. */
  lemma QueryRoundTrip(s: bytes)
    ensures Unescaped(Escaped(s, QueryComponent), QueryComponent) == Ok(s)
  {
    EscapeRoundTrip(s, QueryComponent);
  }

  /** Host names do not round trip: an escaped space is refused. */
  lemma HostSpaceIsRefused()
    ensures Unescaped(Escaped([SPACE], Host), Host).Err?
  {
    EscapeRoundTrip([SPACE], Host);
    assert SPACE in [SPACE] && !ComesBack(SPACE, Host);
  }

  /** An escaped query component holds none of the separators of a query. */
  lemma {:induction false} EscapedHasNoSeparators(s: bytes)
    ensures AMPERSAND !in Escaped(s, QueryComponent)
    ensures EQUALS !in Escaped(s, QueryComponent)
    ensures SEMICOLON !in Escaped(s, QueryComponent)
  {
    if s == [] {
    } else {
      EscapedHasNoSeparators(s[1..]);
      EscapedByteHasNoSeparators(s[0]);
      hide EscapeByte;
    }
  }

  lemma EscapedByteHasNoSeparators(c: byte)
    ensures var e := EscapeByte(c, QueryComponent);
            AMPERSAND !in e && EQUALS !in e && SEMICOLON !in e
  {
  }

  // ---- Which bytes are escaped ----

  /** Letters, digits, and - . _ ~ (section 2.3 of RFC 3986). */
  predicate IsUnreserved(c: byte) {
    0x30 <= c <= 0x39 || 0x41 <= c <= 0x5A || 0x61 <= c <= 0x7A || c == 0x2D || c == 0x2E || c == 0x5F || c == 0x7E
  }

  /** The other bytes that a mode leaves as they are. */
  function KeptIn(mode: Mode): set<byte> {
    match mode
    case Path => {0x24, 0x26, 0x2B, 0x2C, 0x2F, 0x3A, 0x3B, 0x3D, 0x40}                     // $ & + , / : ; = @
    case PathSegment => {0x24, 0x26, 0x2B, 0x3A, 0x3D, 0x40}                                // $ & + : = @
    case Host | Zone => {0x21, 0x22, 0x24, 0x26, 0x27, 0x28, 0x29, 0x2A, 0x2B, 0x2C,        // ! " $ & ' ( ) * + ,
                         0x3A, 0x3B, 0x3C, 0x3D, 0x3E, 0x5B, 0x5D}                          // : ; < = > [ ]
    case UserPassword => {0x24, 0x26, 0x2B, 0x2C, 0x3B, 0x3D}                               // $ & + , ; =
    case QueryComponent => {}
    case Fragment => {0x21, 0x24, 0x26, 0x28, 0x29, 0x2A, 0x2B, 0x2C, 0x2F, 0x3A, 0x3B, 0x3D, 0x3F, 0x40}
  }

  lemma EscapedExactly(c: byte, mode: Mode)
    ensures ShouldEscape(c, mode) <==> !IsUnreserved(c) && c !in KeptIn(mode)
  {
  }

  predicate IsEscapedForm(c: byte, mode: Mode) {
    IsUnreserved(c) || c in KeptIn(mode) || c == 0x25 || (mode == QueryComponent && c == 0x2B)
  }

  lemma EscapeByteForm(c: byte, mode: Mode)
    ensures forall k | 0 <= k < |EscapeByte(c, mode)| :: IsEscapedForm(EscapeByte(c, mode)[k], mode)
  {
    EscapedExactly(c, mode);
    hide ShouldEscape, KeptIn;
  }

  /** In an escaped text there are only bytes that the mode leaves as they are, percent signs, and in a query component
      plus signs; everything else, as # in a query component, is spelled with hexadecimal digits. */
  lemma {:induction false} EscapedForm(s: bytes, mode: Mode)
    ensures forall k | 0 <= k < |Escaped(s, mode)| :: IsEscapedForm(Escaped(s, mode)[k], mode)
  {
    hide EscapeByte, IsEscapedForm;
    if s == [] {
    } else {
      EscapeByteForm(s[0], mode);
      EscapedForm(s[1..], mode);
    }
  }

  // ---- The hexadecimal digits ----

  const LOWER_DIGITS: bytes := [0x30, 0x31, 0x32, 0x33, 0x34, 0x35, 0x36, 0x37, 0x38, 0x39,
                                0x61, 0x62, 0x63, 0x64, 0x65, 0x66]
  const UPPER_DIGITS: bytes := [0x30, 0x31, 0x32, 0x33, 0x34, 0x35, 0x36, 0x37, 0x38, 0x39,
                                0x41, 0x42, 0x43, 0x44, 0x45, 0x46]

  /** The hexadecimal digits are read in either case, and nothing else is one. */
  lemma HexDigitsAreRead(c: byte)
    ensures IsHex(c) <==> c in LOWER_DIGITS || c in UPPER_DIGITS
    ensures IsHex(c) ==> LOWER_DIGITS[Unhex(c)] == c || UPPER_DIGITS[Unhex(c)] == c
    ensures forall d: nat | d < 16 :: Unhex(LOWER_DIGITS[d]) == d && Unhex(UPPER_DIGITS[d]) == d
  {
    assert forall d: nat | d < 16 :: LOWER_DIGITS[d] == if d < 10 then 0x30 + d else 0x61 + (d - 10);
    assert forall d: nat | d < 16 :: UPPER_DIGITS[d] == if d < 10 then 0x30 + d else 0x41 + (d - 10);
    if IsHex(c) {
      assert LOWER_DIGITS[Unhex(c)] == c || UPPER_DIGITS[Unhex(c)] == c;
    }
  }

  // ---- Which texts are accepted ----

  /** A percent sign begins an escape that the mode accepts, and in host and zone modes an ASCII byte that would have to
      be escaped is not there as it is. */
  predicate FineAt(s: bytes, i: nat, mode: Mode)
    requires i < |s|
  {
    if s[i] == 0x25 then
      && i + 2 < |s| && IsHex(s[i + 1]) && IsHex(s[i + 2])
      && var v: byte := Unhex(s[i + 1]) * 16 + Unhex(s[i + 2]);
         && (mode == Host ==> v >= 0x80 || v == 0x25)
         && (mode == Zone ==> v == 0x25 || v == 0x20 || !ShouldEscape(v, Host))
    else (mode == Host || mode == Zone) && s[i] < 0x80 ==> !ShouldEscape(s[i], mode)
  }

  /** What is reported about a position that is not fine: up to three bytes of a bad escape, or the bad byte. */
  function ErrorAt(s: bytes, i: nat): Error
    requires i < |s|
  {
    if s[i] == 0x25 then EscapeError(s[i..if i + 3 <= |s| then i + 3 else |s|]) else InvalidHostError([s[i]])
  }

  lemma FrontIsFine(s: bytes, mode: Mode)
    requires s != []
    ensures FrontError(s, mode) == if FineAt(s, 0, mode) then None else Some(ErrorAt(s, 0))
  {
    hide ShouldEscape;
    assert !ShouldEscape(PLUS, Host) && !ShouldEscape(PLUS, Zone) by { PlusIsKept(); }
    if IsEscape(s) {
      assert s[..3] == [s[0], s[1], s[2]];
    }
    assert s[..1] == [s[0]];
  }

  lemma PlusIsKept()
    ensures !ShouldEscape(PLUS, Host) && !ShouldEscape(PLUS, Zone)
  {
  }

  /** The digits of an escape are fine. */
  lemma DigitsAreFine(s: bytes, i: nat, mode: Mode)
    requires i < |s| && IsHex(s[i])
    ensures FineAt(s, i, mode)
  {
  }

  lemma FineLater(s: bytes, n: nat, i: nat, mode: Mode)
    requires n + i < |s|
    ensures FineAt(s[n..], i, mode) == FineAt(s, n + i, mode) && ErrorAt(s[n..], i) == ErrorAt(s, n + i)
  {
    hide ShouldEscape, IsHex, Unhex;
    assert s[n..][i..if i + 3 <= |s[n..]| then i + 3 else |s[n..]|]
           == s[n + i..if n + i + 3 <= |s| then n + i + 3 else |s|];
  }

  /** The first position that is not fine decides: a text is accepted exactly if there is none, and otherwise the error
      is about that position. */
  lemma {:induction false} AcceptedIffFine(s: bytes, mode: Mode, i: nat)
    requires i <= |s| && forall j | 0 <= j < i :: FineAt(s, j, mode)
    requires i < |s| ==> !FineAt(s, i, mode)
    ensures FirstError(s, mode) == if i == |s| then None else Some(ErrorAt(s, i))
    decreases |s|
  {
    hide FrontError, FineAt, ErrorAt, IsHex;
    if s == [] {
    } else {
      FrontIsFine(s, mode);
      if FineAt(s, 0, mode) {
        var n := FrontLength(s);
        if n == 3 {
          DigitsAreFine(s, 1, mode);
          DigitsAreFine(s, 2, mode);
        }
        assert n <= i;
        forall j | 0 <= j < i - n ensures FineAt(s[n..], j, mode) {
          FineLater(s, n, j, mode);
        }
        if i < |s| {
          FineLater(s, n, i - n, mode);
        }
        AcceptedIffFine(s[n..], mode, i - n);
      }
    }
  }

  /** A text is unescaped exactly if all its positions are fine. */
  lemma UnescapedIff(s: bytes, mode: Mode)
    ensures Unescaped(s, mode).Ok? <==> forall i | 0 <= i < |s| :: FineAt(s, i, mode)
  {
    hide FirstError, FineAt;
    var i := FirstNotFine(s, 0, mode);
    AcceptedIffFine(s, mode, i);
  }

  function FirstNotFine(s: bytes, i: nat, mode: Mode): (k: nat)
    requires i <= |s|
    ensures i <= k <= |s|
    ensures forall j | i <= j < k :: FineAt(s, j, mode)
    ensures k < |s| ==> !FineAt(s, k, mode)
    decreases |s| - i
  {
    if i == |s| || !FineAt(s, i, mode) then i else FirstNotFine(s, i + 1, mode)
  }
}
