/** What the peer and the relay see of the video that is sent
    (internal/voip/call/video/pipeline.go:120-236). */
module VideoWire {
  import opened Bytes
  import opened Wrappers
  import opened AnnexB
  import opened H264Packet
  import opened Rtp
  import opened Srtp
  import opened VideoPipeline
  import opened VideoDelivery
  import opened WireLayout

  /** Some unit of the captured bytes is a key frame: type 5 of ITU-T H.264. */
  predicate KeyFrame(au: seq<byte>) {
    exists k :: 0 <= k < |Split(au)| && Split(au)[k] != [] && Split(au)[k][0] % 32 == 5
  }

  /** Some unit is anything but an access unit delimiter, type 9. */
  predicate HasPicture(au: seq<byte>) {
    exists k :: 0 <= k < |Split(au)| && Split(au)[k] != [] && Split(au)[k][0] % 32 != 9
  }

  lemma {:induction false} KeptIff(ns: seq<seq<byte>>, n: seq<byte>)
    ensures n in Kept(ns) <==> n in ns && n != [] && n[0] % 32 != 9
  {
    if ns != [] {
      KeptIff(ns[1..], n);
      assert ns == [ns[0]] + ns[1..];
    }
  }

  /** The units that are kept stay in their order: those of two lists, one after the
      other, are those of the first and then those of the second. */
  lemma {:induction false} KeptJoins(a: seq<seq<byte>>, b: seq<seq<byte>>)
    ensures Kept(a + b) == Kept(a) + Kept(b)
  {
    if a == [] {
      NilLeft(b);
      NilLeft(Kept(b));
    } else {
      assert (a + b)[0] == a[0] && (a + b)[1..] == a[1..] + b;
      KeptJoins(a[1..], b);
      if a[0] != [] && NalType(a[0][0]) != 9 {
        Assoc([a[0]], Kept(a[1..]), Kept(b));
      }
    }
  }

  /** Something goes out for a capture exactly when a relay is connected that has at most
      48 KiB still to send, there is a picture in it, and a key frame if one is needed. */
  lemma SentIff(p: Prims, s: Sender, au: seq<byte>, connected: bool, buffered: nat)
    requires |s.keys.sessionSalt| == SALT_LEN
    ensures Feed(p, s, au, connected, buffered).wire != [] <==>
      connected && buffered <= 49_152 && HasPicture(au) && (s.keyframeRequired ==> KeyFrame(au))
    ensures Feed(p, s, au, connected, buffered).wire == [] ==> Feed(p, s, au, connected, buffered).sender == s
  {
    PictureKept(au);
    assert HasIdr(Split(au)) <==> KeyFrame(au);
    if Sends(s.keyframeRequired, au, connected, buffered) {
      UnitsFollow(p, s, au, connected, buffered);
    } else if au == [] {
      assert Split(au) == [];
    }
  }

  lemma PictureKept(au: seq<byte>)
    ensures Kept(Split(au)) != [] <==> HasPicture(au)
  {
    var ns := Split(au);
    if HasPicture(au) {
      var k :| 0 <= k < |ns| && ns[k] != [] && ns[k][0] % 32 != 9;
      KeptIff(ns, ns[k]);
    }
    if Kept(ns) != [] {
      KeptIff(ns, Kept(ns)[0]);
      assert Kept(ns)[0] in Kept(ns);
      var k :| 0 <= k < |ns| && ns[k] == Kept(ns)[0];
    }
  }

  /** The elements of the 0xDEBE extension of packet `i` of a unit. */
  function Extension(keyFrame: bool, i: nat, frameNumber: uint16, transportSeq: uint16): seq<Element> {
    [Element(3, [if keyFrame then 0x08 else 0x20] + (if i == 0 then BE16(frameNumber) else [])),
     Element(5, [0, 0]), Element(6, [0, 0]), Element(9, BE16((transportSeq + i) % 0x1_0000))]
  }

  lemma NthExtension(s: SessionState, ps: seq<seq<byte>>, i: nat, keyFrame: bool, frameNumber: uint16, transportSeq: uint16)
    requires i < |ps|
    ensures var h := NthPacket(s, ps, i, FrameInfo(keyFrame), frameNumber, transportSeq).header;
            && h.extension && h.extensionProfile == 0xDEBE
            && Elements(h.extensionData) == Some(Extension(keyFrame, i, frameNumber, transportSeq))
  {
    var tseq := (transportSeq + i) % 0x1_0000;
    ExtensionElements(FrameInfo(keyFrame), if i == 0 then Some(frameNumber) else None, tseq);
    var info := [FrameInfo(keyFrame)] + (if i == 0 then BE16(frameNumber) else []);
    assert [Element(3, info)] + LaterElements(tseq)
        == [Element(3, info), Element(5, [0, 0]), Element(6, [0, 0]), Element(9, BE16(tseq))];
  }

  /** The fields of packet `i` of a unit: the session's source and payload type, numbers
      that go on by one, one timestamp, and the marker on the last. */
  lemma NthFields(s: SessionState, ps: seq<seq<byte>>, i: nat, keyFrame: bool, frameNumber: uint16, transportSeq: uint16)
    requires i < |ps| && s.payloadType < 128
    ensures var h := NthPacket(s, ps, i, FrameInfo(keyFrame), frameNumber, transportSeq).header;
            && h.version == 2 && !h.padding && h.csrcCount == 0 && h.csrc == []
            && h.payloadType == s.payloadType && h.ssrc == s.ssrc
            && h.sequenceNumber == (s.sequenceNumber + i) % 0x1_0000 && h.timestamp == s.timestamp
            && (h.marker <==> i == |ps| - 1)
  {
  }

  /** What is on the wire starts with the header of its packet. */
  lemma HeaderOnWire(p: Prims, k: Keys, roc: uint32, pkt: RtpPacket)
    requires |k.sessionSalt| == SALT_LEN && |pkt.header.csrc| == pkt.header.csrcCount && Wire(pkt.header)
    ensures Decode(Seal(p, k, roc, pkt)) == Ok(pkt.header)
  {
    var h := pkt.header;
    var d := Seal(p, k, roc, pkt);
    if pkt.payload == [] {
      var clear := HeaderBytes(h) + XorStream(p, k.sessionKey, IV(k.sessionSalt, h.ssrc, PacketIndex(roc, h.sequenceNumber)), []);
      NilRight(HeaderBytes(h));
      assert d == HeaderBytes(h) + AuthTag(p, k, clear, roc);
      HeaderRoundTrip(h, AuthTag(p, k, clear, roc));
    } else {
      OpenSeal(p, k, roc, pkt);
    }
  }

  /** The time at which a unit is stamped: 6000 ticks of 90 kHz after the one before. */
  function StampOf(s: Sender): nat {
    if s.first then s.rtp.timestamp else (s.rtp.timestamp + 6000) % 0x1_0000_0000
  }

  /** Packet `i` of `n`, with these fields and this extension. */
  predicate Reads(d: seq<byte>, s: SessionState, stamp: nat, i: nat, n: nat, extension: seq<Element>) {
    var r := Decode(d);
    && r.Ok? && r.value.extension && r.value.extensionProfile == 0xDEBE && Elements(r.value.extensionData) == Some(extension)
    && r.value.payloadType == s.payloadType && r.value.ssrc == s.ssrc
    && r.value.sequenceNumber == (s.sequenceNumber + i) % 0x1_0000 && r.value.timestamp == stamp
    && (r.value.marker <==> i == n - 1)
  }

  lemma NthReads(p: Prims, k: Keys, roll: Roll, s: SessionState, ps: seq<seq<byte>>, keyFrame: bool, frameNumber: uint16,
                 transportSeq: uint16, i: nat)
    requires |k.sessionSalt| == SALT_LEN && s.payloadType < 128 && i < |ps|
    ensures Reads(WirePackets(p, k, roll, s, ps, FrameInfo(keyFrame), frameNumber, transportSeq)[i],
                  s, s.timestamp, i, |ps|, Extension(keyFrame, i, frameNumber, transportSeq))
  {
    PacketOnWire(s, ps, i, FrameInfo(keyFrame), frameNumber, transportSeq);
    WireAt(p, k, roll, s, ps, FrameInfo(keyFrame), frameNumber, transportSeq, i);
    HeaderOnWire(p, k, RollRun(roll, s.sequenceNumber, i + 1).roc,
                 NthPacket(s, ps, i, FrameInfo(keyFrame), frameNumber, transportSeq));
    NthExtension(s, ps, i, keyFrame, frameNumber, transportSeq);
    NthFields(s, ps, i, keyFrame, frameNumber, transportSeq);
  }

  /** Every packet of a unit that is sent, read off the wire: its session's fields, its
      timestamp, the marker on the last, and the extension with the kind of frame, the
      frame's number on the first, and the number of the packet. */
  lemma UnitOnWire(p: Prims, s: Sender, au: seq<byte>, connected: bool, buffered: nat, i: nat)
    requires |s.keys.sessionSalt| == SALT_LEN && s.rtp.payloadType < 128
    requires i < |Feed(p, s, au, connected, buffered).wire|
    ensures var wire := Feed(p, s, au, connected, buffered).wire;
            Reads(wire[i], s.rtp, StampOf(s), i, |wire|, Extension(KeyFrame(au), i, s.frameNumber, s.transportSeq))
  {
    var ps := Packets(Pack(Kept(Split(au))));
    assert HasIdr(Split(au)) <==> KeyFrame(au);
    NthReads(p, s.keys, s.roll, Stamped(s), ps, HasIdr(Split(au)), s.frameNumber, s.transportSeq, i);
  }

  /** A new call starts with frame 1 and packet 0, at rollover count 0, and needs a key
      frame first; its packets are of payload type 97. */
  lemma FreshIs(rtp: SessionState, keys: Keys)
    ensures var s := FreshSender(rtp, keys);
            && s.rtp == rtp && s.keys == keys && s.frameNumber == 1 && s.transportSeq == 0 && s.keyframeRequired && s.first
            && s.roll == Roll(0, 0, false) && PAYLOAD_TYPE_H264 == 97
  {
  }

  /** A packet of our own that the relay echoes is dropped, and so is one that cannot be
      opened; nothing else of the receiver changes but its rollover count. */
  lemma EchoDropped(p: Prims, r: Receiver, data: seq<byte>)
    requires |r.keys.sessionSalt| == SALT_LEN && |data| >= 12
    ensures Long(data[8], data[9], data[10], data[11]) == r.selfSsrc ==> Hear(p, r, data) == Heard(r, [])
    ensures Decode(data).Err? ==> Hear(p, r, data) == Heard(r, [])
  {
  }
}
