/** Gecko fragment frames, extras/obfs/gecko_frame.go, and the sending side of extras/obfs/gecko.go. */
module GeckoFrame {
  import opened Basics

  const FLAG_FRAGMENT := 0x80
  const HEADER_SIZE := 5
  const MIN_FRAGMENT_CHUNKS := 2
  const MAX_FRAGMENT_CHUNKS := 8
  const SALT_LEN := 8
  const BUFFER_SIZE := 2048

  datatype FrameHeader = FrameHeader(padLen: nat, msgID: byte, chunkIdx: byte, totalChunks: byte)
  {
    /** A padding length is a 16-bit number. */
    predicate Representable() {
      padLen < 0x1_0000
    }

    predicate Valid() {
      MIN_FRAGMENT_CHUNKS <= totalChunks <= MAX_FRAGMENT_CHUNKS && chunkIdx < totalChunks
    }
  }

  datatype FrameError = FrameTruncated | FrameInvalid | RandomSourceFailed

  datatype EncodeResult = Encoded(n: nat) | NotEncoded(error: FrameError)

  datatype DecodeResult = Decoded(header: FrameHeader, payload: bytes) | NotDecoded(error: FrameError)

  function HeaderBytes(h: FrameHeader): (s: bytes)
    requires h.Representable() && h.Valid()
    ensures |s| == HEADER_SIZE
  {
    [FLAG_FRAGMENT, h.msgID, h.chunkIdx * 16 + h.totalChunks, h.padLen / 256, h.padLen % 256]
  }

  function FrameBytes(h: FrameHeader, padding: bytes, payload: bytes): bytes
    requires h.Representable() && h.Valid()
  {
    HeaderBytes(h) + padding + payload
  }

  method PutHeader(h: FrameHeader, out: array<byte>)
    requires h.Representable() && h.Valid() && HEADER_SIZE <= out.Length
    modifies out
    ensures out[..HEADER_SIZE] == HeaderBytes(h)
    ensures forall k | HEADER_SIZE <= k < out.Length :: out[k] == old(out[k])
  {
    assert h.chunkIdx * 16 % 256 + h.totalChunks % 16 == h.chunkIdx * 16 + h.totalChunks;
    out[0] := FLAG_FRAGMENT;
    out[1] := h.msgID;
    out[2] := h.chunkIdx * 16 % 256 + h.totalChunks % 16;
    out[3] := h.padLen / 256;
    out[4] := h.padLen % 256;
  }

  /** Writes a frame to the front of `out`. The padding bytes come from the random source, which may fail; what it
      leaves in the place of the frame is then not specified. */
  method EncodeFrame(h: FrameHeader, padding: Option<bytes>, payload: bytes, out: array<byte>) returns (r: EncodeResult)
    requires h.Representable() && (padding.Some? ==> |padding.value| == h.padLen)
    modifies out
    ensures var needed := HEADER_SIZE + h.padLen + |payload|;
            && r == (if !h.Valid() then NotEncoded(FrameInvalid)
                     else if out.Length < needed then NotEncoded(FrameTruncated)
                     else if padding.None? then NotEncoded(RandomSourceFailed)
                     else Encoded(needed))
            && forall k | needed <= k < out.Length :: out[k] == old(out[k])
    ensures r.Encoded? ==> out[..r.n] == FrameBytes(h, padding.value, payload)
    ensures r.NotEncoded? && r.error != RandomSourceFailed ==> out[..] == old(out[..])
  {
    if h.totalChunks < MIN_FRAGMENT_CHUNKS || h.totalChunks > MAX_FRAGMENT_CHUNKS {
      return NotEncoded(FrameInvalid);
    }
    if h.chunkIdx >= h.totalChunks {
      return NotEncoded(FrameInvalid);
    }
    var needed := HEADER_SIZE + h.padLen + |payload|;
    if out.Length < needed {
      return NotEncoded(FrameTruncated);
    }
    hide HeaderBytes;
    PutHeader(h, out);
    if padding.None? {
      return NotEncoded(RandomSourceFailed);
    }
    Put(out, HEADER_SIZE, padding.value);
    Put(out, HEADER_SIZE + h.padLen, payload);
    return Encoded(needed);
  }

  function DecodeFrame(input: bytes): (r: DecodeResult)
    ensures r.Decoded? ==> r.header.Representable() && r.header.Valid()
  {
    if |input| < HEADER_SIZE then NotDecoded(FrameTruncated)
    else if input[0] < FLAG_FRAGMENT then NotDecoded(FrameInvalid)
    else
      var high: int, low: int := input[3], input[4];
      var h := FrameHeader(high * 256 + low, input[1], input[2] / 16, input[2] % 16);
      if h.totalChunks < MIN_FRAGMENT_CHUNKS || h.totalChunks > MAX_FRAGMENT_CHUNKS then NotDecoded(FrameInvalid)
      else if h.chunkIdx >= h.totalChunks then NotDecoded(FrameInvalid)
      else if HEADER_SIZE + h.padLen > |input| then NotDecoded(FrameTruncated)
      else Decoded(h, input[HEADER_SIZE + h.padLen..])
  }

  /** Decoding undoes encoding for every valid header, padding and payload. */
  lemma FrameRoundTrip(h: FrameHeader, padding: bytes, payload: bytes)
    requires h.Representable() && h.Valid() && |padding| == h.padLen
    ensures DecodeFrame(FrameBytes(h, padding, payload)) == Decoded(h, payload)
  {
    var s := FrameBytes(h, padding, payload);
    assert s[2] / 16 == h.chunkIdx && s[2] % 16 == h.totalChunks;
    assert s[HEADER_SIZE + h.padLen..] == payload;
  }

  /** What a decoder accepts is a frame of its header, up to the seven reserved bits of the first byte. */
  lemma DecodedIsFrame(input: bytes)
    requires DecodeFrame(input).Decoded?
    ensures var r := DecodeFrame(input);
            input[0] >= FLAG_FRAGMENT
            && input[0 := FLAG_FRAGMENT]
               == FrameBytes(r.header, input[HEADER_SIZE..HEADER_SIZE + r.header.padLen], r.payload)
  {
    var h := DecodeFrame(input).header;
    assert input[2] == h.chunkIdx * 16 + h.totalChunks;
    assert input == input[..HEADER_SIZE] + input[HEADER_SIZE..HEADER_SIZE + h.padLen] + input[HEADER_SIZE + h.padLen..];
  }

  // Sending

  /** Piece `i` of a packet sent in `n` pieces: equal shares, with the remainder in the last piece. */
  function Chunk(p: bytes, n: nat, i: nat): (c: bytes)
    requires i < n
  {
    ShareInBounds(|p|, n, i);
    var share := |p| / n;
    if i < n - 1 then p[i * share..i * share + share] else p[i * share..]
  }

  function ChunkList(p: bytes, n: nat): seq<bytes> {
    seq(n, i requires 0 <= i < n => Chunk(p, n, i))
  }

  lemma ShareInBounds(len: nat, n: nat, i: nat)
    requires i < n
    ensures 0 <= i * (len / n) <= i * (len / n) + len / n <= len
    ensures (i + 1) * (len / n) == i * (len / n) + len / n
  {
    var share := len / n;
    DivideAndMultiply(len, n);
    Distribute(i + 1, n - i - 1, share);
    Distribute(i, 1, share);
    SmallMultiple(n - i - 1, share);
    SmallMultiple(i, share);
  }

  lemma {:induction false} ChunksCoverPacketFrom(p: bytes, n: nat, i: nat)
    requires i < n
    ensures Flatten(ChunkList(p, n)[i..]) == p[i * (|p| / n)..]
    decreases n - i
  {
    ShareInBounds(|p|, n, i);
    var list, share := ChunkList(p, n), |p| / n;
    assert list[i..] == [Chunk(p, n, i)] + list[i + 1..];
    if i < n - 1 {
      ChunksCoverPacketFrom(p, n, i + 1);
      assert p[i * share..] == p[i * share..i * share + share] + p[(i + 1) * share..];
    } else {
      assert list[i + 1..] == [];
    }
  }

  /** The pieces make up the packet, also when it is shorter than the number of pieces. */
  lemma ChunksCoverPacket(p: bytes, n: nat)
    requires n > 0
    ensures Flatten(ChunkList(p, n)) == p
  {
    ChunksCoverPacketFrom(p, n, 0);
    assert ChunkList(p, n)[0..] == ChunkList(p, n);
  }

  /** The frames of a packet; `pads` holds the random padding of each frame. */
  function Frames(p: bytes, n: nat, msgID: byte, pads: seq<bytes>): seq<bytes>
    requires MIN_FRAGMENT_CHUNKS <= n <= MAX_FRAGMENT_CHUNKS
    requires |pads| == n && forall i | 0 <= i < n :: |pads[i]| < 0x1_0000
  {
    seq(n, i requires 0 <= i < n => FrameBytes(FrameHeader(|pads[i]|, msgID, i, n), pads[i], Chunk(p, n, i)))
  }

  method WriteFragmented(p: bytes, n: nat, msgID: byte, pads: seq<bytes>) returns (written: seq<bytes>)
    requires MIN_FRAGMENT_CHUNKS <= n <= MAX_FRAGMENT_CHUNKS
    requires |pads| == n && forall i | 0 <= i < n :: |pads[i]| < 0x1_0000
    ensures written == Frames(p, n, msgID, pads)
  {
    var chunkSize := |p| / n;
    written := [];
    for i := 0 to n
      invariant written == Frames(p, n, msgID, pads)[..i]
    {
      ShareInBounds(|p|, n, i);
      var start := i * chunkSize;
      var end := |p|;
      if i < n - 1 {
        end := start + chunkSize;
      }
      var chunk := p[start..end];
      var buf := new byte[HEADER_SIZE + |pads[i]| + |chunk|](_ => 0);
      var r := EncodeFrame(FrameHeader(|pads[i]|, msgID, i, n), Some(pads[i]), chunk, buf);
      assert chunk == Chunk(p, n, i) && buf[..r.n] == Frames(p, n, msgID, pads)[i];
      written := written + [buf[..r.n]];
    }
  }

  /** The padding for a chunk; `draw` is the random number below `RandomBound`. */
  function RandomPadLen(minPkt: nat, maxPkt: nat, chunkLen: nat, draw: nat): (padLen: nat)
    requires minPkt <= maxPkt <= BUFFER_SIZE
    requires draw == 0 || draw < RandomBound(minPkt, maxPkt, chunkLen)
    ensures padLen < 0x1_0000
    ensures var base := SALT_LEN + HEADER_SIZE + chunkLen;
            if base <= maxPkt then Max(minPkt, base) <= base + padLen <= maxPkt else padLen == 0
  {
    var base := SALT_LEN + HEADER_SIZE + chunkLen;
    var lo := Max(minPkt, base);
    if lo > maxPkt then 0 else lo - base + draw
  }

  function RandomBound(minPkt: nat, maxPkt: nat, chunkLen: nat): int {
    maxPkt - Max(minPkt, SALT_LEN + HEADER_SIZE + chunkLen) + 1
  }

  /** Every frame of a packet decodes to its piece. */
  lemma FramesDecode(p: bytes, n: nat, msgID: byte, pads: seq<bytes>, i: nat)
    requires MIN_FRAGMENT_CHUNKS <= n <= MAX_FRAGMENT_CHUNKS && i < n
    requires |pads| == n && forall j | 0 <= j < n :: |pads[j]| < 0x1_0000
    ensures DecodeFrame(Frames(p, n, msgID, pads)[i]) == Decoded(FrameHeader(|pads[i]|, msgID, i, n), Chunk(p, n, i))
  {
    FrameRoundTrip(FrameHeader(|pads[i]|, msgID, i, n), pads[i], Chunk(p, n, i));
  }

  /** The draws reach every size between the limits, and no other. */
  lemma PaddingReachesEverySize(minPkt: nat, maxPkt: nat, chunkLen: nat, size: nat)
    requires minPkt <= maxPkt <= BUFFER_SIZE && SALT_LEN + HEADER_SIZE + chunkLen <= maxPkt
    ensures var base := SALT_LEN + HEADER_SIZE + chunkLen;
            (exists draw: nat ::
               draw < RandomBound(minPkt, maxPkt, chunkLen)
               && base + RandomPadLen(minPkt, maxPkt, chunkLen, draw) == size)
            <==> Max(minPkt, base) <= size <= maxPkt
  {
    var base := SALT_LEN + HEADER_SIZE + chunkLen;
    if Max(minPkt, base) <= size <= maxPkt {
      var draw: nat := size - Max(minPkt, base);
      assert draw < RandomBound(minPkt, maxPkt, chunkLen)
             && base + RandomPadLen(minPkt, maxPkt, chunkLen, draw) == size;
    }
  }
}
