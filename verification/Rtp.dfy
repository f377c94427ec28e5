/** RTP headers, packets and the sending session
    (internal/voip/media/rtp.go; sections 5.1 and 5.3.1 of RFC 3550). */
module Rtp {
  import opened Bytes
  import opened Wrappers

  const RTP_VERSION: byte := 2
  const RTP_MIN_HEADER_SIZE: nat := 12

  datatype RtpHeader = RtpHeader(
    version: byte,
    padding: bool,
    extension: bool,
    csrcCount: byte,
    marker: bool,
    payloadType: byte,
    sequenceNumber: uint16,
    timestamp: uint32,
    ssrc: uint32,
    csrc: seq<uint32>,
    extensionProfile: uint16,
    extensionData: seq<byte>)
  {
    /** RtpHeader.Size */
    function Size(): nat {
      RTP_MIN_HEADER_SIZE + csrcCount * 4 + (if extension then 4 + |extensionData| else 0)
    }
  }

  datatype RtpPacket = RtpPacket(header: RtpHeader, payload: seq<byte>)

  function BoolBit(b: bool): byte { if b then 1 else 0 }

  /** Version, padding, extension and CSRC count. */
  function FirstByte(h: RtpHeader): byte {
    h.version % 4 * 64 + BoolBit(h.padding) * 32 + BoolBit(h.extension) * 16 + h.csrcCount % 16
  }

  /** Marker and payload type. */
  function SecondByte(h: RtpHeader): byte {
    BoolBit(h.marker) * 128 + h.payloadType % 128
  }

  function CsrcBytes(csrc: seq<uint32>): (s: seq<byte>)
    ensures |s| == 4 * |csrc|
  {
    if csrc == [] then [] else BE32(csrc[0]) + CsrcBytes(csrc[1..])
  }

  function FixedBytes(h: RtpHeader): (s: seq<byte>)
    ensures |s| == 12
  {
    [FirstByte(h), SecondByte(h)] + BE16(h.sequenceNumber) + BE32(h.timestamp) + BE32(h.ssrc)
  }

  function ExtensionBytes(h: RtpHeader): (s: seq<byte>)
    ensures |s| == if h.extension then 4 + |h.extensionData| else 0
  {
    if h.extension then BE16(h.extensionProfile) + BE16(|h.extensionData| / 4) + h.extensionData else []
  }

  function HeaderBytes(h: RtpHeader): (s: seq<byte>)
    ensures |s| == RTP_MIN_HEADER_SIZE + 4 * |h.csrc| + (if h.extension then 4 + |h.extensionData| else 0)
    ensures |h.csrc| == h.csrcCount ==> |s| == h.Size()
  {
    FixedBytes(h) + CsrcBytes(h.csrc) + ExtensionBytes(h)
  }

  /** Writing `data` behind what is `done`, as PutUint16, PutUint32 and copy do. */
  method Put(buf: array<byte>, ghost orig: seq<byte>, ghost done: seq<byte>, offset: nat, data: seq<byte>)
    requires offset == |done| && offset + |data| <= buf.Length == |orig|
    requires buf[..] == done + orig[offset..]
    modifies buf
    ensures buf[..] == done + data + orig[offset + |data|..]
  {
    ghost var before := buf[..];
    forall k | 0 <= k < |data| {
      buf[offset + k] := data[k];
    }
    forall k | 0 <= k < buf.Length
      ensures buf[k] == (done + data + orig[offset + |data|..])[k]
    {
      if k < offset || k >= offset + |data| {
        assert buf[k] == before[k];
      }
    }
  }

  method PutFixed(h: RtpHeader, buf: array<byte>, ghost orig: seq<byte>)
    requires buf.Length >= 12 && buf[..] == orig
    modifies buf
    ensures buf[..] == FixedBytes(h) + orig[12..]
  {
    ghost var a, b, c := [FirstByte(h), SecondByte(h)], BE16(h.sequenceNumber), BE32(h.timestamp);
    assert orig == [] + orig[0..];
    Put(buf, orig, [], 0, [FirstByte(h), SecondByte(h)]);
    NilLeft(a);
    Put(buf, orig, a, 2, BE16(h.sequenceNumber));
    Put(buf, orig, a + b, 4, BE32(h.timestamp));
    Put(buf, orig, a + b + c, 8, BE32(h.ssrc));
  }

  method PutCsrc(h: RtpHeader, buf: array<byte>, ghost orig: seq<byte>) returns (offset: nat)
    requires |orig| == buf.Length >= 12 + 4 * |h.csrc| && buf[..] == FixedBytes(h) + orig[12..]
    modifies buf
    ensures offset == 12 + 4 * |h.csrc|
    ensures buf[..] == FixedBytes(h) + CsrcBytes(h.csrc) + orig[offset..]
  {
    offset := 12;
    NilRight(FixedBytes(h));
    for k := 0 to |h.csrc|
      invariant offset == 12 + 4 * k
      invariant buf[..] == FixedBytes(h) + CsrcBytes(h.csrc[..k]) + orig[offset..]
    {
      CsrcSnoc(h.csrc[..k], h.csrc[k]);
      assert h.csrc[..k + 1] == h.csrc[..k] + [h.csrc[k]];
      Put(buf, orig, FixedBytes(h) + CsrcBytes(h.csrc[..k]), offset, BE32(h.csrc[k]));
      Assoc(FixedBytes(h), CsrcBytes(h.csrc[..k]), BE32(h.csrc[k]));
      offset := offset + 4;
    }
    assert h.csrc[..|h.csrc|] == h.csrc;
  }

  method PutExtension(h: RtpHeader, buf: array<byte>, ghost orig: seq<byte>, ghost done: seq<byte>, offset: nat)
    requires offset == |done| && offset + |ExtensionBytes(h)| <= |orig| == buf.Length
    requires buf[..] == done + orig[offset..]
    modifies buf
    ensures buf[..] == done + ExtensionBytes(h) + orig[offset + |ExtensionBytes(h)|..]
  {
    if h.extension {
      ghost var p, w := BE16(h.extensionProfile), BE16(|h.extensionData| / 4);
      Put(buf, orig, done, offset, BE16(h.extensionProfile));
      Put(buf, orig, done + p, offset + 2, BE16(|h.extensionData| / 4));
      Put(buf, orig, done + p + w, offset + 4, h.extensionData);
      Assoc(done, p, w);
      Assoc(done, p + w, h.extensionData);
    } else {
      NilRight(done);
    }
  }

  /** RtpHeader.Encode: the header's bytes at the front of the caller's buffer, the
      rest of it untouched; nothing is written to a buffer that is too small.  A CSRC list
      longer than its count must not run past the buffer. */
  method Encode(h: RtpHeader, buf: array<byte>) returns (n: Result<nat>)
    requires buf.Length >= h.Size() ==> buf.Length >= |HeaderBytes(h)|
    modifies buf
    ensures buf.Length < h.Size() ==> n.Err? && buf[..] == old(buf[..])
    ensures buf.Length >= h.Size() ==> n == Ok(h.Size()) && buf[..] == HeaderBytes(h) + old(buf[..])[|HeaderBytes(h)|..]
  {
    if buf.Length < h.Size() {
      return Err("buffer too small for RTP header");
    }
    ghost var orig := buf[..];
    PutFixed(h, buf, orig);
    var offset := PutCsrc(h, buf, orig);
    PutExtension(h, buf, orig, FixedBytes(h) + CsrcBytes(h.csrc), offset);
    n := Ok(h.Size());
  }

  lemma {:induction false} CsrcSnoc(csrc: seq<uint32>, c: uint32)
    ensures CsrcBytes(csrc + [c]) == CsrcBytes(csrc) + BE32(c)
  {
    if csrc == [] {
      assert csrc + [c] == [c];
      NilRight(BE32(c));
      NilLeft(BE32(c));
    } else {
      assert (csrc + [c])[1..] == csrc[1..] + [c];
      CsrcSnoc(csrc[1..], c);
      Assoc(BE32(csrc[0]), CsrcBytes(csrc[1..]), BE32(c));
    }
  }

  /** The CSRC list of `count` entries at the head of `s`. */
  function ReadCsrc(s: seq<byte>, count: nat): (csrc: seq<uint32>)
    requires |s| >= 4 * count
    ensures |csrc| == count
  {
    if count == 0 then [] else [U32(s)] + ReadCsrc(s[4..], count - 1)
  }

  /** An extension block that is cut short leaves the fields at their zero values. */
  function ReadProfile(extension: bool, ext: seq<byte>): uint16 {
    if extension && |ext| >= 4 then U16(ext) else 0
  }

  function ReadData(extension: bool, ext: seq<byte>): seq<byte> {
    if extension && |ext| >= 4 && |ext| >= 4 + U16(ext[2..]) * 4 then ext[4..4 + U16(ext[2..]) * 4] else []
  }

  /** The header in a buffer that holds the fixed part and the CSRC list. */
  function ReadHeader(buf: seq<byte>): (h: RtpHeader)
    requires |buf| >= 12 && |buf| >= 12 + buf[0] % 16 * 4
  {
    var extension, ext := buf[0] / 16 % 2 != 0, buf[12 + buf[0] % 16 * 4..];
    RtpHeader(
      buf[0] / 64, buf[0] / 32 % 2 != 0, extension, buf[0] % 16,
      buf[1] / 128 != 0, buf[1] % 128,
      U16(buf[2..]), U32(buf[4..]), U32(buf[8..]),
      ReadCsrc(buf[12..], buf[0] % 16), ReadProfile(extension, ext), ReadData(extension, ext))
  }

  function Decode(buf: seq<byte>): (r: Result<RtpHeader>) {
    if |buf| < RTP_MIN_HEADER_SIZE then Err("buffer too small for RTP header")
    else if buf[0] / 64 != RTP_VERSION then Err("invalid RTP version")
    else if |buf| < 12 + buf[0] % 16 * 4 then Err("buffer too small for CSRC list")
    else Ok(ReadHeader(buf))
  }

  method ReadCsrcList(buf: seq<byte>, count: nat) returns (csrc: seq<uint32>, offset: nat)
    requires |buf| >= 12 + 4 * count
    ensures csrc == ReadCsrc(buf[12..], count) && offset == 12 + 4 * count
  {
    csrc, offset := [], 12;
    for k := 0 to count
      invariant offset == 12 + 4 * k
      invariant ReadCsrc(buf[12..], count) == csrc + ReadCsrc(buf[offset..], count - k)
    {
      assert buf[offset..][4..] == buf[offset + 4..];
      Assoc(csrc, [U32(buf[offset..])], ReadCsrc(buf[offset + 4..], count - k - 1));
      csrc := csrc + [U32(buf[offset..])];
      offset := offset + 4;
    }
    NilRight(csrc);
  }

  method ReadExtension(buf: seq<byte>, start: nat, extension: bool) returns (profile: uint16, data: seq<byte>)
    requires start <= |buf|
    ensures profile == ReadProfile(extension, buf[start..]) && data == ReadData(extension, buf[start..])
  {
    profile, data := 0, [];
    var offset := start;
    if extension && |buf| >= offset + 4 {
      ghost var ext := buf[start..];
      profile := U16(buf[offset..]);
      assert ext[2..] == buf[offset + 2..];
      var extBytes := U16(buf[offset + 2..]) * 4;
      offset := offset + 4;
      if |buf| >= offset + extBytes {
        data := buf[offset..offset + extBytes];
        assert ext[4..4 + extBytes] == data;
      }
    }
  }

  method DecodeRtpHeader(buf: seq<byte>) returns (r: Result<RtpHeader>)
    ensures r == Decode(buf)
  {
    if |buf| < RTP_MIN_HEADER_SIZE {
      return Err("buffer too small for RTP header");
    }
    var version := buf[0] / 64;
    if version != RTP_VERSION {
      return Err("invalid RTP version");
    }
    var csrcCount := buf[0] % 16;
    if |buf| < RTP_MIN_HEADER_SIZE + csrcCount * 4 {
      return Err("buffer too small for CSRC list");
    }
    var extension := buf[0] / 16 % 2 != 0;
    var csrc, offset := ReadCsrcList(buf, csrcCount);
    var profile, data := ReadExtension(buf, offset, extension);
    r := Ok(RtpHeader(version, buf[0] / 32 % 2 != 0, extension, csrcCount, buf[1] / 128 != 0, buf[1] % 128,
                      U16(buf[2..]), U32(buf[4..]), U32(buf[8..]), csrc, profile, data));
  }

  // ------------------------------------------------------------------
  // Decoding undoes encoding
  // ------------------------------------------------------------------

  /** An extension the wire can carry: whole 32-bit words, at most 16 bits of them,
      and nothing at all without the X bit. */
  predicate WireExtension(h: RtpHeader) {
    if h.extension then |h.extensionData| % 4 == 0 && |h.extensionData| / 4 < TWO16
    else h.extensionProfile == 0 && h.extensionData == []
  }

  /** The headers the wire format can carry. */
  predicate Wire(h: RtpHeader) {
    h.version == RTP_VERSION && h.csrcCount < 16 && h.payloadType < 128 && WireExtension(h)
  }

  lemma {:induction false} ReadCsrcBytes(csrc: seq<uint32>, rest: seq<byte>)
    ensures ReadCsrc(CsrcBytes(csrc) + rest, |csrc|) == csrc
  {
    if csrc != [] {
      var s := CsrcBytes(csrc) + rest;
      Assoc(BE32(csrc[0]), CsrcBytes(csrc[1..]), rest);
      U32OfBE32(csrc[0], CsrcBytes(csrc[1..]) + rest);
      assert s[4..] == CsrcBytes(csrc[1..]) + rest;
      ReadCsrcBytes(csrc[1..], rest);
    }
  }

  /** The fixed part, read back from a buffer that starts with it. */
  lemma ReadFixed(h: RtpHeader, rest: seq<byte>)
    ensures var buf := FixedBytes(h) + rest;
            && buf[0] == FirstByte(h) && buf[1] == SecondByte(h)
            && U16(buf[2..]) == h.sequenceNumber && U32(buf[4..]) == h.timestamp && U32(buf[8..]) == h.ssrc
            && buf[12..] == rest
  {
    var buf := FixedBytes(h) + rest;
    var a, b, c := BE16(h.sequenceNumber), BE32(h.timestamp), BE32(h.ssrc);
    assert buf[2..] == a + (b + c + rest);
    assert buf[4..] == b + (c + rest);
    assert buf[8..] == c + rest;
    U16OfBE16(h.sequenceNumber, b + c + rest);
    U32OfBE32(h.timestamp, c + rest);
    U32OfBE32(h.ssrc, rest);
  }

  lemma FirstByteBits(h: RtpHeader)
    ensures var b := FirstByte(h);
            && b / 64 == h.version % 4 && (b / 32 % 2 != 0) == h.padding
            && (b / 16 % 2 != 0) == h.extension && b % 16 == h.csrcCount % 16
  {
  }

  lemma SecondByteBits(h: RtpHeader)
    ensures var b := SecondByte(h); (b / 128 != 0) == h.marker && b % 128 == h.payloadType % 128
  {
  }

  lemma ExtensionLayout(h: RtpHeader, rest: seq<byte>)
    requires h.extension
    ensures var ext := ExtensionBytes(h) + rest;
            && |ext| >= 4 && U16(ext) == h.extensionProfile
            && U16(ext[2..]) == |h.extensionData| / 4 % TWO16
            && ext[4..] == h.extensionData + rest
  {
    var ext := ExtensionBytes(h) + rest;
    var p, w := BE16(h.extensionProfile), BE16(|h.extensionData| / 4);
    Assoc(p + w, h.extensionData, rest);
    Assoc(p, w, h.extensionData + rest);
    assert ext == p + (w + (h.extensionData + rest));
    U16OfBE16(h.extensionProfile, w + (h.extensionData + rest));
    assert ext[2..] == w + (h.extensionData + rest);
    U16OfBE16(|h.extensionData| / 4, h.extensionData + rest);
    assert ext[4..] == h.extensionData + rest;
  }

  /** The extension survives the wire exactly when it fits its block. */
  lemma ExtensionRoundTrip(h: RtpHeader, rest: seq<byte>)
    ensures var ext := ExtensionBytes(h) + rest;
            ReadProfile(h.extension, ext) == h.extensionProfile && ReadData(h.extension, ext) == h.extensionData
            <==> WireExtension(h)
  {
    if h.extension {
      ExtensionLayout(h, rest);
      var ext, n := ExtensionBytes(h) + rest, |h.extensionData|;
      if WireExtension(h) {
        assert ext[4..4 + n] == ext[4..][..n] == h.extensionData;
      }
    }
  }

  /** The fields of a buffer, put together. */
  lemma Assemble(h: RtpHeader, buf: seq<byte>, ext: seq<byte>)
    requires |buf| >= 12 + h.csrcCount * 4 && h.csrcCount < 16
    requires buf[0] / 64 == 2 && (buf[0] / 32 % 2 != 0) == h.padding
    requires (buf[0] / 16 % 2 != 0) == h.extension && buf[0] % 16 == h.csrcCount
    requires (buf[1] / 128 != 0) == h.marker && buf[1] % 128 == h.payloadType % 128
    requires U16(buf[2..]) == h.sequenceNumber && U32(buf[4..]) == h.timestamp && U32(buf[8..]) == h.ssrc
    requires ReadCsrc(buf[12..], h.csrcCount) == h.csrc && buf[12 + h.csrcCount * 4..] == ext
    ensures Decode(buf)
         == Ok(h.(version := 2, payloadType := h.payloadType % 128,
                  extensionProfile := ReadProfile(h.extension, ext), extensionData := ReadData(h.extension, ext)))
  {
  }

  lemma Bytes12(h: RtpHeader, rest: seq<byte>)
    ensures var ext := ExtensionBytes(h) + rest;
            HeaderBytes(h) + rest == FixedBytes(h) + (CsrcBytes(h.csrc) + ext)
  {
    Assoc(FixedBytes(h) + CsrcBytes(h.csrc), ExtensionBytes(h), rest);
    Assoc(FixedBytes(h), CsrcBytes(h.csrc), ExtensionBytes(h) + rest);
  }

  /** Everything but the extension: each field modulo its width on the wire. */
  lemma ReadBack(h: RtpHeader, rest: seq<byte>)
    requires |h.csrc| == h.csrcCount < 16 && h.version % 4 == 2
    ensures var ext := ExtensionBytes(h) + rest;
            Decode(HeaderBytes(h) + rest)
            == Ok(h.(version := 2, payloadType := h.payloadType % 128,
                     extensionProfile := ReadProfile(h.extension, ext), extensionData := ReadData(h.extension, ext)))
  {
    var ext := ExtensionBytes(h) + rest;
    Bytes12(h, rest);
    var buf := FixedBytes(h) + (CsrcBytes(h.csrc) + ext);
    ReadFixed(h, CsrcBytes(h.csrc) + ext);
    FirstByteBits(h);
    SecondByteBits(h);
    ReadCsrcBytes(h.csrc, ext);
    assert buf[12 + h.csrcCount * 4..] == buf[12..][h.csrcCount * 4..] == ext;
    Assemble(h, buf, ext);
  }

  /** Another version is refused, and a longer CSRC list does not come back. */
  lemma Unreadable(h: RtpHeader, rest: seq<byte>)
    requires |h.csrc| == h.csrcCount && (h.csrcCount >= 16 || h.version % 4 != 2)
    ensures Decode(HeaderBytes(h) + rest) != Ok(h)
  {
    Bytes12(h, rest);
    ReadFixed(h, CsrcBytes(h.csrc) + (ExtensionBytes(h) + rest));
    FirstByteBits(h);
  }

  /** A header survives the wire if and only if the wire format can carry it. */
  lemma HeaderRoundTrip(h: RtpHeader, rest: seq<byte>)
    requires |h.csrc| == h.csrcCount
    ensures Decode(HeaderBytes(h) + rest) == Ok(h) <==> Wire(h)
  {
    if h.csrcCount < 16 && h.version % 4 == 2 {
      ReadBack(h, rest);
      ExtensionRoundTrip(h, rest);
    } else {
      Unreadable(h, rest);
    }
  }

  // ------------------------------------------------------------------
  // The sending session
  // ------------------------------------------------------------------

  datatype SessionState = SessionState(ssrc: uint32, payloadType: byte, sequenceNumber: uint16, timestamp: uint32)

  function NextPacket(s: SessionState, payload: seq<byte>, marker: bool): RtpPacket {
    RtpPacket(
      RtpHeader(RTP_VERSION, false, false, 0, marker, s.payloadType, s.sequenceNumber, s.timestamp, s.ssrc, [], 0, []),
      payload)
  }

  /** The session after one packet of `duration` samples: both counters wrap. */
  function Advance(s: SessionState, duration: nat): SessionState {
    s.(sequenceNumber := (s.sequenceNumber + 1) % TWO16, timestamp := (s.timestamp + duration) % TWO32)
  }

  class RtpSession {
    const ssrc: uint32
    const payloadType: byte
    const sampleRate: int
    const samplesPerPacket: nat
    var sequenceNumber: uint16
    var timestamp: uint32

    function State(): SessionState
      reads this
    {
      SessionState(ssrc, payloadType, sequenceNumber, timestamp)
    }

    /** NewRtpSession, with its two random starting points as arguments. */
    constructor (ssrc: uint32, payloadType: byte, sampleRate: int, samplesPerPacket: nat, seq0: uint16, ts0: uint32)
      ensures State() == SessionState(ssrc, payloadType, seq0, ts0)
      ensures this.sampleRate == sampleRate && this.samplesPerPacket == samplesPerPacket
    {
      this.ssrc, this.payloadType, this.sampleRate, this.samplesPerPacket := ssrc, payloadType, sampleRate, samplesPerPacket;
      sequenceNumber, timestamp := seq0, ts0;
    }

    method AdvanceTimestamp(samples: uint32)
      modifies this
      ensures State() == old(State()).(timestamp := (old(timestamp) + samples) % TWO32)
    {
      timestamp := (timestamp + samples) % TWO32;
    }

    method CreatePacketWithDuration(payload: seq<byte>, durationSamples: nat, marker: bool) returns (p: RtpPacket)
      modifies this
      ensures p == NextPacket(old(State()), payload, marker)
      ensures State() == Advance(old(State()), durationSamples)
    {
      p := RtpPacket(
        RtpHeader(RTP_VERSION, false, false, 0, marker, payloadType, sequenceNumber, timestamp, ssrc, [], 0, []),
        payload);
      sequenceNumber := (sequenceNumber + 1) % TWO16;
      timestamp := (timestamp + durationSamples) % TWO32;
    }

    /** CreatePacket: a packet of the session's own length. */
    method CreatePacket(payload: seq<byte>, marker: bool) returns (p: RtpPacket)
      modifies this
      ensures p == NextPacket(old(State()), payload, marker)
      ensures State() == Advance(old(State()), samplesPerPacket)
    {
      p := CreatePacketWithDuration(payload, samplesPerPacket, marker);
    }
  }
}
