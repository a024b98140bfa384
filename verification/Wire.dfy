/** The 128-byte frame header, the frame codec and the server's stream reader. */
module Wire {
  import opened BigEndian
  import opened Results

  const HEADER_SIZE: nat := 128
  const MAGIC: nat := 0x4C4F_4652
  const VERSION: nat := 1
  const MAX_PAYLOAD_SIZE: nat := 16 * 1024 * 1024

  // A packed header is its bytes: the source casts network bytes to the struct.
  type Header = h: seq<Byte> | |h| == 128 witness seq(128, _ => 0)

  datatype Frame = Frame(header: Header, payload: seq<Byte>)

  datatype ProtocolError =
    | FrameTooShort(expected: nat, actual: nat)
    | InvalidMagic
    | UnsupportedVersion(version: nat)
    | PayloadTooLarge(size: nat, max: nat)
    | FrameTruncated(expected: nat, actual: nat)

  // ---- header accessors (byte offsets of the packed struct) ----

  function U32At(h: seq<Byte>, at: nat): (n: U32)
    requires at + 4 <= |h|
  {
    Widths(); Value(h[at..at + 4])
  }

  function U64At(h: seq<Byte>, at: nat): (n: U64)
    requires at + 8 <= |h|
  {
    Widths(); Value(h[at..at + 8])
  }

  function U128At(h: seq<Byte>, at: nat): (n: U128)
    requires at + 16 <= |h|
  {
    Widths(); Value(h[at..at + 16])
  }

  function Magic(h: Header): U32 { U32At(h, 0) }
  function Version(h: Header): Byte { h[4] }
  function OpcodeRaw(h: Header): nat { Value(h[6..8]) }
  function PayloadSize(h: Header): U32 { U32At(h, 12) }
  function RoomId(h: Header): U128 { U128At(h, 16) }
  function SenderId(h: Header): U64 { U64At(h, 32) }
  function ContextId(h: Header): U64 { U64At(h, 40) }
  function LogIndex(h: Header): U64 { ContextId(h) }
  function RecipientId(h: Header): U64 { ContextId(h) }
  function Epoch(h: Header): U64 { U64At(h, 56) }
  function Signature(h: Header): seq<Byte> { h[64..128] }

  /** The layout of the 128 bytes: a header is its fields, big-endian, one after another. The bytes
      between are the flags, the request id and the clock. */
  lemma HeaderLayout(h: Header)
    ensures OpcodeRaw(h) < Pow256(2) && Be64(LogIndex(h)) == Be64(RecipientId(h)) == h[40..48]
    ensures h == Be32(Magic(h)) + [Version(h), h[5]] + ToBytes(OpcodeRaw(h), 2) + h[8..12] + Be32(PayloadSize(h))
                 + Be128(RoomId(h)) + Be64(SenderId(h)) + Be64(ContextId(h)) + h[48..56] + Be64(Epoch(h)) + Signature(h)
  {
    ToBytesOfValue(h[0..4]);
    ToBytesOfValue(h[6..8]);
    ToBytesOfValue(h[12..16]);
    ToBytesOfValue(h[16..32]);
    ToBytesOfValue(h[32..40]);
    ToBytesOfValue(h[40..48]);
    ToBytesOfValue(h[56..64]);
    hide *;
    JoinFields(h);
  }

  lemma JoinFields(h: seq<Byte>)
    requires |h| == 128
    ensures h == h[0..4] + [h[4], h[5]] + h[6..8] + h[8..12] + h[12..16] + h[16..32] + h[32..40] + h[40..48] + h[48..56] + h[56..64]
                 + h[64..128]
  {
  }

  /** Everything that is signed: all of the first cache line but the context id. */
  function SigningData(h: Header): (d: seq<Byte>)
    ensures |d| == 56
    ensures forall i | 0 <= i < 64 && !(40 <= i < 48) :: d[if i < 40 then i else i - 8] == h[i]
  {
    h[..40] + h[48..64]
  }

  function Splice(h: Header, at: nat, bs: seq<Byte>): (r: Header)
    requires at + |bs| <= 128
    ensures r[at..at + |bs|] == bs
    ensures forall i | 0 <= i < at || at + |bs| <= i < 128 :: r[i] == h[i]
  {
    h[..at] + bs + h[at + |bs|..]
  }

  function WithLogIndex(h: Header, index: U64): (r: Header)
    ensures LogIndex(r) == index
    ensures r[..40] == h[..40] && r[48..] == h[48..]
  {
    Splice(h, 40, Be64(index))
  }

  function WithPayloadSize(h: Header, size: U32): (r: Header)
    ensures PayloadSize(r) == size
    ensures r[..12] == h[..12] && r[16..] == h[16..]
  {
    Splice(h, 12, Be32(size))
  }

  /** Two headers carry the same signing data and the same signature exactly when
      they differ nowhere but in the eight bytes the sequencer writes. */
  lemma SignedPartIffSameElsewhere(h: Header, g: Header)
    ensures SigningData(h) == SigningData(g) && Signature(h) == Signature(g)
       <==> exists index: U64 :: g == WithLogIndex(h, index)
  {
    hide Be64, U64At, Value;
    if SigningData(h) == SigningData(g) && Signature(h) == Signature(g) {
      SameSignedPart(h, g);
      RestoredByIndex(h, g);
    }
    forall index: U64 | g == WithLogIndex(h, index)
      ensures SigningData(h) == SigningData(g) && Signature(h) == Signature(g)
    {
      assert h[48..64] == h[48..][..16] && g[48..64] == g[48..][..16];
      assert h[64..128] == h[48..][16..] && g[64..128] == g[48..][16..];
    }
  }

  lemma SameSignedPart(h: Header, g: Header)
    requires SigningData(h) == SigningData(g) && Signature(h) == Signature(g)
    ensures h[..40] == g[..40] && h[48..] == g[48..]
  {
    assert h[..40] == SigningData(h)[..40] == SigningData(g)[..40] == g[..40];
    assert h[48..64] == SigningData(h)[40..] == SigningData(g)[40..] == g[48..64];
    assert h[48..] == h[48..64] + h[64..128];
    assert g[48..] == g[48..64] + g[64..128];
  }

  lemma RestoredByIndex(h: Header, g: Header)
    requires h[..40] == g[..40] && h[48..] == g[48..]
    ensures g == WithLogIndex(h, LogIndex(g))
  {
    hide WithLogIndex, Splice, Value, Be64;
    var r := WithLogIndex(h, LogIndex(g));
    assert r[40..48] == g[40..48] by { ValueInjective(r[40..48], g[40..48]); }
    SplitAroundContext(r);
    SplitAroundContext(g);
  }

  lemma SplitAroundContext(h: Header)
    ensures h == h[..40] + h[40..48] + h[48..]
  {
  }

  /** Assigning an index leaves every other field as it was. */
  lemma WithLogIndexKeepsFields(h: Header, index: U64)
    ensures var r := WithLogIndex(h, index);
            && Magic(r) == Magic(h) && Version(r) == Version(h) && OpcodeRaw(r) == OpcodeRaw(h)
            && PayloadSize(r) == PayloadSize(h) && RoomId(r) == RoomId(h) && SenderId(r) == SenderId(h)
            && Epoch(r) == Epoch(h) && Signature(r) == Signature(h) && SigningData(r) == SigningData(h)
  {
    var r := WithLogIndex(h, index);
    assert r[0..4] == h[0..4] && r[6..8] == h[6..8] && r[12..16] == h[12..16] && r[16..32] == h[16..32] && r[32..40] == h[32..40];
    assert r[56..64] == h[56..64] && r[64..128] == h[64..128];
    SignedPartIffSameElsewhere(h, r);
  }

  /** `FrameHeader::set_log_index`: overwrites the context bytes where they stand. */
  method SetLogIndex(header: array<Byte>, index: U64)
    requires header.Length == 128
    modifies header
    ensures header[..] == WithLogIndex(old(header[..]), index)
  {
    var bytes := Be64(index);
    ghost var before := header[..];
    for i := 0 to 8
      invariant forall k | 0 <= k < 128 :: header[k] == if 40 <= k < 40 + i then bytes[k - 40] else before[k]
    {
      header[40 + i] := bytes[i];
    }
    assert header[..] == WithLogIndex(before, index);
  }

  // ---- codec ----

  /** `Frame::new`: the header's size field is set from the payload. */
  function NewFrame(h: Header, payload: seq<Byte>): (f: Frame)
    requires |payload| <= U32_MAX
    ensures f.payload == payload && PayloadSize(f.header) == |f.payload|
    ensures f.header[..12] == h[..12] && f.header[16..] == h[16..]
  {
    Frame(WithPayloadSize(h, |payload|), payload)
  }

  /** A header that already claims its payload's size is not changed by `Frame::new`. */
  lemma NewFrameKeepsHeader(h: Header, payload: seq<Byte>)
    requires PayloadSize(h) == |payload|
    ensures NewFrame(h, payload) == Frame(h, payload)
  {
    var r := WithPayloadSize(h, |payload|);
    ValueInjective(r[12..16], h[12..16]);
    assert r == r[..12] + r[12..16] + r[16..];
    assert h == h[..12] + h[12..16] + h[16..];
  }

  /** The frames that have a wire form the decoder accepts. */
  predicate Encodable(f: Frame) {
    && Magic(f.header) == MAGIC
    && Version(f.header) == VERSION
    && PayloadSize(f.header) == |f.payload| <= MAX_PAYLOAD_SIZE
  }

  function WireBytes(f: Frame): seq<Byte> { f.header + f.payload }

  function Encode(f: Frame): (r: Result<seq<Byte>, ProtocolError>) {
    if |f.payload| > MAX_PAYLOAD_SIZE then Err(PayloadTooLarge(|f.payload|, MAX_PAYLOAD_SIZE))
    else Ok(WireBytes(f))
  }

  function ParseHeader(bytes: seq<Byte>): (r: Result<Header, ProtocolError>) {
    if |bytes| < HEADER_SIZE then Err(FrameTooShort(HEADER_SIZE, |bytes|))
    else
      var h: Header := bytes[..128];
      if Magic(h) != MAGIC then Err(InvalidMagic)
      else if Version(h) != VERSION then Err(UnsupportedVersion(Version(h)))
      else if PayloadSize(h) > MAX_PAYLOAD_SIZE then Err(PayloadTooLarge(PayloadSize(h), MAX_PAYLOAD_SIZE))
      else Ok(h)
  }

  function Decode(bytes: seq<Byte>): (r: Result<Frame, ProtocolError>) {
    match ParseHeader(bytes)
    case Err(e) => Err(e)
    case Ok(h) =>
      var size := PayloadSize(h);
      if |bytes| < HEADER_SIZE + size then Err(FrameTruncated(size, |bytes| - HEADER_SIZE))
      else Ok(Frame(h, bytes[HEADER_SIZE..HEADER_SIZE + size]))
  }

  /** Why bytes are refused: too short for a header, wrong magic, wrong version, a claimed size over
      the limit, or fewer bytes than claimed — the first of these that holds. */
  lemma DecodeRefusals(bytes: seq<Byte>)
    ensures var r := Decode(bytes);
            if |bytes| < HEADER_SIZE then r == Err(FrameTooShort(HEADER_SIZE, |bytes|))
            else
              var h: Header := bytes[..HEADER_SIZE];
              && (r == Err(InvalidMagic) <==> Magic(h) != MAGIC)
              && (r == Err(UnsupportedVersion(Version(h))) <==> Magic(h) == MAGIC && Version(h) != VERSION)
              && (r == Err(PayloadTooLarge(PayloadSize(h), MAX_PAYLOAD_SIZE)) <==>
                    Magic(h) == MAGIC && Version(h) == VERSION && PayloadSize(h) > MAX_PAYLOAD_SIZE)
              && (r == Err(FrameTruncated(PayloadSize(h), |bytes| - HEADER_SIZE)) <==>
                    Magic(h) == MAGIC && Version(h) == VERSION && PayloadSize(h) <= MAX_PAYLOAD_SIZE
                    && |bytes| - HEADER_SIZE < PayloadSize(h))
  {
  }

  /** Decoding is exactly the inverse of encoding: a byte string decodes to `f`
      if and only if `f` is encodable and the string begins with its encoding. */
  lemma DecodeIffStartsWithEncoding(bytes: seq<Byte>, f: Frame)
    ensures Decode(bytes) == Ok(f) <==> Encodable(f) && Encode(f) == Ok(WireBytes(f)) && WireBytes(f) <= bytes
  {
    if Decode(bytes) == Ok(f) {
      assert bytes[..128 + |f.payload|] == bytes[..128] + bytes[128..128 + |f.payload|];
    }
    if Encodable(f) && WireBytes(f) <= bytes {
      assert bytes[..128] == WireBytes(f)[..128] == f.header;
      assert bytes[128..128 + |f.payload|] == WireBytes(f)[128..] == f.payload;
    }
  }

  /** A decoder that ignores trailing bytes: what follows the frame does not matter. */
  lemma DecodeEncode(f: Frame, rest: seq<Byte>)
    requires Encodable(f)
    ensures Decode(WireBytes(f) + rest) == Ok(f)
  {
    DecodeIffStartsWithEncoding(WireBytes(f) + rest, f);
  }

  class ByteBuffer {
    var bytes: seq<Byte>

    constructor ()
      ensures bytes == []
    {
      bytes := [];
    }

    method PutSlice(bs: seq<Byte>)
      modifies this
      ensures bytes == old(bytes) + bs
    {
      bytes := bytes + bs;
    }
  }

  /** `Frame::encode` appends to the caller's buffer, or leaves it untouched on error. */
  method EncodeInto(f: Frame, dst: ByteBuffer) returns (r: Result<(), ProtocolError>)
    modifies dst
    ensures r.Ok? <==> Encode(f).Ok?
    ensures r.Ok? ==> dst.bytes == old(dst.bytes) + Encode(f).value
    ensures r.Err? ==> dst.bytes == old(dst.bytes) && r.error == Encode(f).error
  {
    if |f.payload| > MAX_PAYLOAD_SIZE {
      return Err(PayloadTooLarge(|f.payload|, MAX_PAYLOAD_SIZE));
    }
    dst.PutSlice(f.header);
    dst.PutSlice(f.payload);
    assert dst.bytes == old(dst.bytes) + (f.header + f.payload);
    return Ok(());
  }

  // ---- stream framing ----

  function EncodeAll(fs: seq<Frame>): seq<Byte> {
    if fs == [] then [] else WireBytes(fs[0]) + EncodeAll(fs[1..])
  }

  predicate AllEncodable(fs: seq<Frame>) { forall f | f in fs :: Encodable(f) }

  lemma {:induction false} EncodeAllAppend(fs: seq<Frame>, f: Frame)
    ensures EncodeAll(fs + [f]) == EncodeAll(fs) + WireBytes(f)
  {
    if fs == [] {
      assert (fs + [f])[1..] == [];
    } else {
      assert (fs + [f])[1..] == fs[1..] + [f];
      EncodeAllAppend(fs[1..], f);
    }
  }

  /** A byte stream splits into frames and an undecodable rest in one way only. */
  lemma {:induction false} StreamSplitUnique(fs: seq<Frame>, r: seq<Byte>, gs: seq<Frame>, s: seq<Byte>)
    requires AllEncodable(fs) && AllEncodable(gs)
    requires Decode(r).Err? && Decode(s).Err?
    requires EncodeAll(fs) + r == EncodeAll(gs) + s
    ensures fs == gs && r == s
  {
    hide Decode, Encodable, WireBytes;
    var stream := EncodeAll(fs) + r;
    if fs != [] {
      assert stream == WireBytes(fs[0]) + (EncodeAll(fs[1..]) + r);
      DecodeEncode(fs[0], EncodeAll(fs[1..]) + r);
    } else {
      assert stream == r;
    }
    if gs != [] {
      assert stream == WireBytes(gs[0]) + (EncodeAll(gs[1..]) + s);
      DecodeEncode(gs[0], EncodeAll(gs[1..]) + s);
    } else {
      assert stream == s;
    }
    if fs != [] {
      var n := |WireBytes(fs[0])|;
      assert EncodeAll(fs[1..]) + r == stream[n..] == EncodeAll(gs[1..]) + s;
      StreamSplitUnique(fs[1..], r, gs[1..], s);
      assert fs == [fs[0]] + fs[1..] && gs == [gs[0]] + gs[1..];
    }
  }

  /** Decoding looks only at the bytes the header claims. */
  lemma DecodeClaimedBytes(rest: seq<Byte>)
    requires |rest| >= HEADER_SIZE
    ensures var n := HEADER_SIZE + PayloadSize(rest[..HEADER_SIZE]);
            if |rest| < n then Decode(rest).Err?
            else && (Decode(rest[..n]).Ok? <==> Decode(rest).Ok?)
                 && (Decode(rest[..n]).Ok? ==> Encodable(Decode(rest[..n]).value) && WireBytes(Decode(rest[..n]).value) == rest[..n])
  {
    hide PayloadSize, Magic, Version;
    var n := HEADER_SIZE + PayloadSize(rest[..HEADER_SIZE]);
    if |rest| >= n {
      var buf := rest[..n];
      assert buf[..128] == rest[..128] && buf[128..] == rest[128..n];
      assert buf == buf[..128] + buf[128..];
    }
  }

  /** The read loop of `handle_stream`: header, then payload, then decode, until a
      read or a decode fails. It consumes exactly the encodings of what it returns. */
  method ReadFrames(stream: seq<Byte>) returns (frames: seq<Frame>, rest: seq<Byte>)
    ensures AllEncodable(frames)
    ensures EncodeAll(frames) + rest == stream
    ensures Decode(rest).Err?
  {
    frames, rest := [], stream;
    while true
      invariant AllEncodable(frames)
      invariant EncodeAll(frames) + rest == stream
      decreases |rest|
    {
      if |rest| < HEADER_SIZE {
        return;
      }
      hide Decode, PayloadSize, Encodable, WireBytes, EncodeAll, AllEncodable;
      DecodeClaimedBytes(rest);
      var n := HEADER_SIZE + PayloadSize(rest[..HEADER_SIZE]);
      if |rest| < n {
        return;
      }
      match Decode(rest[..n]) {
        case Err(_) => return;
        case Ok(f) =>
          OneMoreFrame(frames, f, rest, n, stream);
          frames, rest := frames + [f], rest[n..];
      }
    }
  }

  lemma OneMoreFrame(frames: seq<Frame>, f: Frame, rest: seq<Byte>, n: nat, stream: seq<Byte>)
    requires AllEncodable(frames) && EncodeAll(frames) + rest == stream
    requires n <= |rest| && Encodable(f) && WireBytes(f) == rest[..n]
    ensures AllEncodable(frames + [f]) && EncodeAll(frames + [f]) + rest[n..] == stream
  {
    hide Encodable, WireBytes, EncodeAll;
    EncodeAllAppend(frames, f);
    assert rest == rest[..n] + rest[n..];
  }

  /** Frames written to a stream one after another, followed by any tail that does not
      begin with a frame, are read back as that list and that tail. */
  method WriteThenRead(written: seq<Frame>, tail: seq<Byte>) returns (frames: seq<Frame>, rest: seq<Byte>)
    requires AllEncodable(written) && Decode(tail).Err?
    ensures frames == written && rest == tail
  {
    var buffer := new ByteBuffer();
    for i := 0 to |written|
      invariant buffer.bytes == EncodeAll(written[..i])
    {
      EncodeAllAppend(written[..i], written[i]);
      assert written[..i + 1] == written[..i] + [written[i]];
      assert Encodable(written[i]);
      var _ := EncodeInto(written[i], buffer);
    }
    assert written[..|written|] == written;
    frames, rest := ReadFrames(buffer.bytes + tail);
    StreamSplitUnique(frames, rest, written, tail);
  }
}
