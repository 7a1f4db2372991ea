/** The wire form of relayed UDP messages, core/internal/protocol/proxy.go. */
module UdpCodec {
  import opened Basics

  const MAX_ADDRESS_LENGTH := 2048
  const MAX_VARINT_1 := 63
  const MAX_VARINT_2 := 16383
  const MAX_VARINT_4 := 1073741823
  const MAX_VARINT_8 := 4611686018427387903

  type uint16 = n: int | 0 <= n < 0x1_0000
  type uint32 = n: int | 0 <= n < 0x1_0000_0000

  datatype UDPMessage = UDPMessage(
    sessionID: uint32,
    packetID: uint16,
    fragID: byte,
    fragCount: byte,
    addr: bytes,
    data: bytes)
  {
    function HeaderSize(): int {
      4 + 2 + 1 + 1 + VarintLen(|addr|) + |addr|
    }

    function Size(): int {
      HeaderSize() + |data|
    }

    /** An address that a length prefix can express at all. */
    predicate Encodable() {
      |addr| <= MAX_VARINT_8
    }
  }

  datatype ParseError = EndOfInput | UnexpectedEnd | InvalidAddressLength | InvalidMessageLength

  datatype ParseResult = Parsed(message: UDPMessage) | Rejected(error: ParseError)

  // Big-endian numbers

  function Pow256(k: nat): (p: nat)
    ensures p > 0
  {
    if k == 0 then 1 else 256 * Pow256(k - 1)
  }

  /** The low `len` bytes of `n`, most significant first. */
  function BigEndian(n: nat, len: nat): (s: bytes)
    ensures |s| == len
  {
    if len == 0 then [] else [n / Pow256(len - 1) % 256] + BigEndian(n, len - 1)
  }

  function BigEndianValue(s: bytes): nat {
    if s == [] then 0 else s[0] * Pow256(|s| - 1) + BigEndianValue(s[1..])
  }

  lemma {:induction false} BigEndianRoundTrip(n: nat, len: nat)
    ensures BigEndianValue(BigEndian(n, len)) == n % Pow256(len)
  {
    if len == 0 {
    } else {
      BigEndianRoundTrip(n, len - 1);
      SplitModulus(n, Pow256(len - 1));
    }
  }

  lemma SplitModulus(n: nat, unit: nat)
    requires unit > 0
    ensures n % (256 * unit) == (n / unit % 256) * unit + n % unit
  {
    var q, r := n / unit, n % unit;
    var a, b := q / 256, q % 256;
    DivideAndMultiply(n, unit);
    DivideAndMultiply(q, 256);
    Distribute(a * 256, b, unit);
    Regroup(a, unit);
    SmallDigit(b, r, unit);
    UniqueModulus(n, a, b * unit + r, 256 * unit);
  }

  lemma Regroup(a: nat, unit: nat)
    ensures a * 256 * unit == a * (256 * unit)
  {
  }

  lemma SmallDigit(b: nat, r: nat, unit: nat)
    requires b < 256 && r < unit
    ensures b * unit + r < 256 * unit
  {
    Distribute(b, 255 - b, unit);
    SmallMultiple(255 - b, unit);
  }

  // Variable-length integers, section 16 of RFC 9000: the two top bits of the first byte give the
  // length, and the remaining bits hold the value in network byte order.

  function VarintLen(n: nat): (len: nat)
    ensures len in {1, 2, 4, 8}
  {
    if n <= MAX_VARINT_1 then 1 else if n <= MAX_VARINT_2 then 2 else if n <= MAX_VARINT_4 then 4 else 8
  }

  function LengthBits(len: nat): (bits: nat)
    ensures bits < 4
  {
    if len == 1 then 0 else if len == 2 then 1 else if len == 4 then 2 else 3
  }

  function Varint(n: nat): (s: bytes)
    requires n <= MAX_VARINT_8
    ensures |s| == VarintLen(n)
  {
    var len := VarintLen(n);
    [LengthBits(len) * 64 + TopBits(n)] + BigEndian(n, len - 1)
  }

  /** The part of the value that shares its byte with the length. */
  function TopBits(n: nat): (b: byte)
    requires n <= MAX_VARINT_8
    ensures b < 64
  {
    Powers();
    n / Pow256(VarintLen(n) - 1)
  }

  lemma Powers()
    ensures Pow256(0) == 1 && Pow256(1) == 0x100 && Pow256(2) == 0x1_0000 && Pow256(3) == 0x100_0000
    ensures Pow256(4) == 0x1_0000_0000 && Pow256(5) == 0x100_0000_0000
    ensures Pow256(6) == 0x1_0000_0000_0000 && Pow256(7) == 0x100_0000_0000_0000
  {
    assert Pow256(4) == 0x1_0000_0000;
  }

  lemma {:induction false} BigEndianAt(n: nat, len: nat, k: nat)
    requires k < len
    ensures BigEndian(n, len)[k] == n / Pow256(len - 1 - k) % 256
  {
    if k == 0 {
    } else {
      BigEndianAt(n, len - 1, k - 1);
    }
  }

  /** The value and the number of bytes read; None if the input is too short. */
  function ParseVarint(s: bytes): Option<(nat, nat)> {
    if s == [] then None
    else
      var bits := s[0] / 64;
      var len := if bits == 0 then 1 else if bits == 1 then 2 else if bits == 2 then 4 else 8;
      if |s| < len then None
      else Some((BigEndianValue([s[0] % 64] + s[1..len]), len))
  }

  lemma VarintRoundTrip(n: nat, rest: bytes)
    requires n <= MAX_VARINT_8
    ensures ParseVarint(Varint(n) + rest) == Some((n, VarintLen(n)))
  {
    TopAndLow(n);
    hide Pow256, BigEndian, BigEndianValue, TopBits;
    var len := VarintLen(n);
    var first, low := LengthBits(len) * 64 + TopBits(n), BigEndian(n, len - 1);
    var s := Varint(n) + rest;
    assert s[0] == first && first % 64 == TopBits(n) && first / 64 == LengthBits(len);
    assert s[1..len] == low;
  }

  lemma TopAndLow(n: nat)
    requires n <= MAX_VARINT_8
    ensures BigEndianValue([TopBits(n)] + BigEndian(n, VarintLen(n) - 1)) == n
  {
    var k := VarintLen(n) - 1;
    var unit, s := Pow256(k), [TopBits(n)] + BigEndian(n, k);
    BigEndianRoundTrip(n, k);
    DivideAndMultiply(n, unit);
    hide Pow256, BigEndian;
    assert s[1..] == BigEndian(n, k);
    assert BigEndianValue(s) == TopBits(n) * unit + BigEndianValue(s[1..]);
  }

  // Writing

  lemma TwoBytes(i: nat)
    requires MAX_VARINT_1 < i <= MAX_VARINT_2
    ensures Varint(i) == [i / 0x100 + 0x40, i % 256]
  {
    Powers();
    BigEndianAt(i, 1, 0);
  }

  lemma FourBytes(i: nat)
    requires MAX_VARINT_2 < i <= MAX_VARINT_4
    ensures Varint(i) == [i / 0x100_0000 + 0x80, i / 0x1_0000 % 256, i / 0x100 % 256, i % 256]
  {
    Powers();
    BigEndianAt(i, 3, 0);
    BigEndianAt(i, 3, 1);
    BigEndianAt(i, 3, 2);
    hide BigEndian, Pow256;
  }

  lemma EightBytes(i: nat)
    requires MAX_VARINT_4 < i <= MAX_VARINT_8
    ensures Varint(i) == [i / 0x100_0000_0000_0000 + 0xc0, i / 0x1_0000_0000_0000 % 256, i / 0x100_0000_0000 % 256,
                          i / 0x1_0000_0000 % 256, i / 0x100_0000 % 256, i / 0x1_0000 % 256, i / 0x100 % 256, i % 256]
  {
    Powers();
    forall k: nat | k < 7 ensures BigEndian(i, 7)[k] == i / Pow256(6 - k) % 256 {
      BigEndianAt(i, 7, k);
    }
    hide BigEndian, Pow256;
  }

  /** The source panics on a value above 62 bits or a buffer that is too short. */
  method VarintPut(b: array<byte>, at: nat, i: nat) returns (n: nat)
    requires i <= MAX_VARINT_8 && at + VarintLen(i) <= b.Length
    modifies b
    ensures n == VarintLen(i)
    ensures b[..at + n] == old(b[..at]) + Varint(i)
    ensures forall k | at + n <= k < b.Length :: b[k] == old(b[k])
  {
    n := VarintLen(i);
    var s: bytes;
    if i <= MAX_VARINT_1 {
      s := [i];
    } else if i <= MAX_VARINT_2 {
      s := [i / 0x100 + 0x40, i % 256];
      TwoBytes(i);
    } else if i <= MAX_VARINT_4 {
      s := [i / 0x100_0000 + 0x80, i / 0x1_0000 % 256, i / 0x100 % 256, i % 256];
      FourBytes(i);
    } else {
      s := [i / 0x100_0000_0000_0000 + 0xc0, i / 0x1_0000_0000_0000 % 256, i / 0x100_0000_0000 % 256,
            i / 0x1_0000_0000 % 256, i / 0x100_0000 % 256, i / 0x1_0000 % 256, i / 0x100 % 256, i % 256];
      EightBytes(i);
    }
    assert s == Varint(i);
    hide Varint;
    Put(b, at, s);
  }

  /** What a message looks like on the wire. */
  function Encode(m: UDPMessage): (s: bytes)
    requires m.Encodable()
    ensures |s| == m.Size()
  {
    FixedFields(m) + Varint(|m.addr|) + m.addr + m.data
  }

  function FixedFields(m: UDPMessage): (s: bytes)
    ensures |s| == 8
  {
    BigEndian(m.sessionID, 4) + BigEndian(m.packetID, 2) + [m.fragID, m.fragCount]
  }

  method PutFixedFields(m: UDPMessage, buf: array<byte>)
    requires buf.Length >= 8
    modifies buf
    ensures buf[..8] == FixedFields(m) && forall k | 8 <= k < buf.Length :: buf[k] == old(buf[k])
  {
    hide BigEndian;
    Put(buf, 0, BigEndian(m.sessionID, 4));
    Put(buf, 4, BigEndian(m.packetID, 2));
    assert buf[..6] == BigEndian(m.sessionID, 4) + BigEndian(m.packetID, 2);
    Put(buf, 6, [m.fragID, m.fragCount]);
  }

  /** Fills the front of the buffer, or touches nothing and returns -1 if the buffer is too small. */
  method Serialize(m: UDPMessage, buf: array<byte>) returns (n: int)
    requires m.Encodable()
    modifies buf
    ensures buf.Length < m.Size() ==> n == -1 && buf[..] == old(buf[..])
    ensures buf.Length >= m.Size() ==> n == m.Size() && buf[..n] == Encode(m) && buf[n..] == old(buf[n..])
  {
    if buf.Length < m.Size() {
      return -1;
    }
    hide FixedFields, Varint, VarintLen;
    PutFixedFields(m, buf);
    var i := VarintPut(buf, 8, |m.addr|);
    assert buf[..8 + i] == FixedFields(m) + Varint(|m.addr|);
    Put(buf, 8 + i, m.addr);
    i := i + |m.addr|;
    assert buf[..8 + i] == FixedFields(m) + Varint(|m.addr|) + m.addr;
    Put(buf, 8 + i, m.data);
    i := i + |m.data|;
    return 8 + i;
  }

  function Parse(msg: bytes): ParseResult {
    if |msg| < 8 then
      if |msg| == 0 then Rejected(EndOfInput) else Rejected(UnexpectedEnd)
    else
      match ParseVarint(msg[8..])
      case None => Rejected(if |msg| == 8 then EndOfInput else UnexpectedEnd)
      case Some((addrLen, varintLen)) =>
        if addrLen == 0 || addrLen > MAX_ADDRESS_LENGTH then Rejected(InvalidAddressLength)
        else
          var addrStart := 8 + varintLen;
          var addrEnd := addrStart + addrLen;
          // At least one byte of data has to follow the address.
          if |msg| <= addrEnd then Rejected(InvalidMessageLength)
          else
            Parsed(UDPMessage(Number32(msg[..4]), Number16(msg[4..6]), msg[6], msg[7],
                              msg[addrStart..addrEnd], msg[addrEnd..]))
  }

  function Number32(s: bytes): uint32
    requires |s| == 4
  {
    BigEndianBound(s);
    Powers();
    BigEndianValue(s)
  }

  function Number16(s: bytes): uint16
    requires |s| == 2
  {
    BigEndianBound(s);
    Powers();
    BigEndianValue(s)
  }

  lemma {:induction false} BigEndianBound(s: bytes)
    ensures BigEndianValue(s) < Pow256(|s|)
  {
    if s == [] {
    } else {
      BigEndianBound(s[1..]);
      DigitBound(s[0], BigEndianValue(s[1..]), Pow256(|s| - 1));
    }
  }

  lemma DigitBound(digit: byte, low: nat, unit: nat)
    requires low < unit
    ensures digit * unit + low < 256 * unit
  {
    Distribute(digit, 255 - digit, unit);
    SmallMultiple(255 - digit, unit);
  }

  lemma NumbersRoundTrip(session: uint32, packet: uint16)
    ensures Number32(BigEndian(session, 4)) == session
    ensures Number16(BigEndian(packet, 2)) == packet
  {
    Powers();
    BigEndianRoundTrip(session, 4);
    BigEndianRoundTrip(packet, 2);
  }

  /** A message comes back unchanged exactly when its address is neither empty nor too long and it
      carries data. */
  lemma RoundTrip(m: UDPMessage)
    requires m.Encodable()
    ensures Parse(Encode(m)) ==
            if |m.addr| == 0 || |m.addr| > MAX_ADDRESS_LENGTH then Rejected(InvalidAddressLength)
            else if m.data == [] then Rejected(InvalidMessageLength)
            else Parsed(m)
  {
    EncodedLayout(m);
    VarintRoundTrip(|m.addr|, m.addr + m.data);
    NumbersRoundTrip(m.sessionID, m.packetID);
    hide Encode, BigEndian, BigEndianValue, Number32, Number16, ParseVarint, Varint;
  }

  lemma EncodedLayout(m: UDPMessage)
    requires m.Encodable()
    ensures var s, start := Encode(m), 8 + VarintLen(|m.addr|);
            && s[..4] == BigEndian(m.sessionID, 4) && s[4..6] == BigEndian(m.packetID, 2)
            && s[6] == m.fragID && s[7] == m.fragCount
            && s[8..] == Varint(|m.addr|) + (m.addr + m.data)
            && s[start..start + |m.addr|] == m.addr && s[start + |m.addr|..] == m.data
  {
    hide BigEndian, Varint;
  }

  /** Whatever a parse accepts can be sent on and parsed again with the same result. */
  lemma ParsedSurvivesResending(msg: bytes)
    requires Parse(msg).Parsed?
    ensures var m := Parse(msg).message; m.Encodable() && Parse(Encode(m)) == Parsed(m)
  {
    RoundTrip(Parse(msg).message);
  }

  /** A number takes the fewest bytes that hold it behind the two length bits (section 16 of RFC 9000). */
  lemma VarintIsShortest(n: nat)
    requires n < 0x4000_0000_0000_0000
    ensures |Varint(n)| == if n < 64 then 1 else if n < 16384 then 2 else if n < 1073741824 then 4 else 8
  {
  }

  lemma ShortVarint(n: nat, j: nat)
    requires n <= MAX_VARINT_8 && 0 < j < VarintLen(n)
    ensures ParseVarint(Varint(n)[..j]) == None
  {
    hide BigEndian, BigEndianValue, TopBits;
    var len := VarintLen(n);
    assert Varint(n)[..j][0] == LengthBits(len) * 64 + TopBits(n);
  }

  lemma NoVarint()
    ensures ParseVarint([]) == None
  {
  }

  lemma TakeBeyond(head: bytes, data: bytes, d: nat)
    requires d <= |data|
    ensures (head + data)[..|head| + d] == head + data[..d]
  {
  }

  lemma CutEncodes(m: UDPMessage, d: nat)
    requires m.Encodable() && d <= |m.data|
    ensures m.(data := m.data[..d]).Encodable()
    ensures Encode(m.(data := m.data[..d])) == Encode(m)[..8 + VarintLen(|m.addr|) + |m.addr| + d]
  {
    var head := FixedFields(m) + Varint(|m.addr|) + m.addr;
    assert FixedFields(m.(data := m.data[..d])) == FixedFields(m);
    hide FixedFields, Varint, VarintLen;
    TakeBeyond(head, m.data, d);
  }

  lemma CutHeader(m: UDPMessage, k: nat)
    requires m.Encodable() && 8 <= k <= |Encode(m)|
    ensures Encode(m)[..k][8..] == (Varint(|m.addr|) + (m.addr + m.data))[..k - 8]
  {
    EncodedLayout(m);
    hide Encode, Varint;
  }

  /** What becomes of a message whose end is cut off: the first `k` bytes of a sendable message are refused up to the
      first byte of its data, with an error that says where they end, and are the message with less data beyond it. */
  lemma CutMessage(m: UDPMessage, k: nat)
    requires m.Encodable() && 1 <= |m.addr| <= 2048 && k <= |Encode(m)|
    ensures var dataStart := 8 + VarintLen(|m.addr|) + |m.addr|;
            Parse(Encode(m)[..k]) ==
            if k == 0 || k == 8 then Rejected(EndOfInput)
            else if k < 8 + VarintLen(|m.addr|) then Rejected(UnexpectedEnd)
            else if k <= dataStart then Rejected(InvalidMessageLength)
            else Parsed(m.(data := m.data[..k - dataStart]))
  {
    var addrLen := |m.addr|;
    var start := 8 + VarintLen(addrLen);
    hide BigEndian, BigEndianValue, Number32, Number16, Varint, Encode, ParseVarint, VarintLen;
    if k > start + addrLen {
      CutEncodes(m, k - start - addrLen);
      RoundTrip(m.(data := m.data[..k - start - addrLen]));
      hide Parse;
    } else if k >= 8 {
      CutHeader(m, k);
      if k == 8 {
        NoVarint();
      } else if k < start {
        assert (Varint(addrLen) + (m.addr + m.data))[..k - 8] == Varint(addrLen)[..k - 8];
        ShortVarint(addrLen, k - 8);
      } else {
        TakeBeyond(Varint(addrLen), m.addr + m.data, k - start);
        VarintRoundTrip(addrLen, (m.addr + m.data)[..k - start]);
      }
    }
  }
}
