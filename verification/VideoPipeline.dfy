/** The video pipeline: access units in, protected packets out, and back
    (internal/voip/call/video/pipeline.go). */
module VideoPipeline {
  import opened Bytes
  import opened Wrappers
  import opened AnnexB
  import opened H264Packet
  import opened Rtp
  import opened Srtp

  const RTP_STEP_SAMPLES: uint32 := 6000
  const CONGESTION_DROP_BYTES: nat := 48 * 1024
  const VIDEO_EXT_PROFILE: uint16 := 0xDEBE
  const MEDIA_FRAME_IDR: byte := 0x08
  const MEDIA_FRAME_DELTA: byte := 0x20
  const PAYLOAD_TYPE_H264: byte := 97

  // ------------------------------------------------------------------
  // The access unit that is sent
  // ------------------------------------------------------------------

  /** The units that are sent: all but the access unit delimiters (type 9). */
  function Kept(ns: seq<seq<byte>>): (kept: seq<seq<byte>>) {
    if ns == [] then []
    else if ns[0] == [] || NalType(ns[0][0]) == 9 then Kept(ns[1..])
    else [ns[0]] + Kept(ns[1..])
  }

  predicate HasIdr(ns: seq<seq<byte>>) {
    exists k :: 0 <= k < |ns| && ns[k] != [] && NalType(ns[k][0]) == 5
  }

  /** Units with a start code between each two: what is fragmented as one NAL. */
  function Pack(ns: seq<seq<byte>>): seq<byte> {
    if ns == [] then [] else ns[0] + Join(ns[1..])
  }

  /** The 0xDEBE header extension, padded to a multiple of four bytes. */
  function VideoExt(info: byte, frameNumber: Option<uint16>, transportSeq: uint16): (ext: seq<byte>)
    ensures |ext| % 4 == 0 && |ext| <= 16
  {
    (match frameNumber
     case Some(n) => [0x32, info] + BE16(n)
     case None => [0x30, info])
    + [0x51, 0, 0, 0x61, 0, 0, 0x91] + BE16(transportSeq)
    + Zeros(if frameNumber.Some? then 3 else 1)
  }

  method BuildWhatsappVideoExt(info: byte, frameNumber: Option<uint16>, transportSeq: uint16) returns (ext: seq<byte>)
    ensures ext == VideoExt(info, frameNumber, transportSeq)
  {
    if frameNumber.Some? {
      ext := [0x32, info] + BE16(frameNumber.value);
    } else {
      ext := [0x30, info];
    }
    ext := ext + [0x51, 0x00, 0x00] + [0x61, 0x00, 0x00] + [0x91] + BE16(transportSeq);
    ghost var body := ext;
    while |ext| % 4 != 0
      invariant |body| <= |ext| <= |body| + (4 - |body| % 4) % 4
      invariant ext == body + Zeros(|ext| - |body|)
      decreases (4 - |ext| % 4) % 4
    {
      ext := ext + [0x00];
    }
  }

  datatype Element = Element(id: nat, data: seq<byte>)

  /** The elements of an extension: an id and a length in one byte, the data; zero bytes
      are padding. */
  function Elements(ext: seq<byte>): (es: Option<seq<Element>>)
    decreases |ext|
  {
    if ext == [] then Some([])
    else if ext[0] == 0 then Elements(ext[1..])
    else
      var n := ext[0] % 16 + 1;
      if 1 + n > |ext| then None
      else
        match Elements(ext[1 + n..])
        case None => None
        case Some(rest) => Some([Element(ext[0] / 16, ext[1..1 + n])] + rest)
  }

  lemma ElementFirst(head: byte, data: seq<byte>, rest: seq<byte>, more: Option<seq<Element>>)
    requires head != 0 && |data| == head % 16 + 1 && more == Elements(rest)
    ensures Elements([head] + data + rest)
         == if more.None? then None else Some([Element(head / 16, data)] + more.value)
  {
    var s := [head] + data + rest;
    assert s[1..1 + |data|] == data && s[1 + |data|..] == rest;
  }

  lemma {:induction false} PaddingSkipped(n: nat)
    ensures Elements(Zeros(n)) == Some([])
  {
    if n > 0 {
      assert Zeros(n)[1..] == Zeros(n - 1);
      PaddingSkipped(n - 1);
    }
  }

  /** The elements after the first: bandwidth, offset and transport sequence. */
  function LaterBytes(transportSeq: uint16, pad: nat): seq<byte> {
    [0x51] + [0, 0] + ([0x61] + [0, 0] + ([0x91] + BE16(transportSeq) + Zeros(pad)))
  }

  function LaterElements(transportSeq: uint16): seq<Element> {
    [Element(5, [0, 0])] + ([Element(6, [0, 0])] + ([Element(9, BE16(transportSeq))] + []))
  }

  lemma LaterRead(transportSeq: uint16, pad: nat)
    ensures Elements(LaterBytes(transportSeq, pad)) == Some(LaterElements(transportSeq))
  {
    var t9, e9 := [0x91] + BE16(transportSeq) + Zeros(pad), [Element(9, BE16(transportSeq))] + [];
    assert Elements(t9) == Some(e9) by {
      PaddingSkipped(pad);
      ElementFirst(0x91, BE16(transportSeq), Zeros(pad), Some([]));
    }
    var t6, e6 := [0x61] + [0, 0] + t9, [Element(6, [0, 0])] + e9;
    assert Elements(t6) == Some(e6) by {
      ElementFirst(0x61, [0, 0], t9, Some(e9));
    }
    ElementFirst(0x51, [0, 0], t6, Some(e6));
  }

  lemma ExtensionBytesAre(info: byte, frameNumber: Option<uint16>, transportSeq: uint16)
    ensures VideoExt(info, frameNumber, transportSeq)
         == (if frameNumber.Some? then [0x32] + ([info] + BE16(frameNumber.value)) else [0x30] + [info])
            + LaterBytes(transportSeq, if frameNumber.Some? then 3 else 1)
  {
  }

  /** The extension's elements: media frame info, with the frame number on the first packet
      of a unit; initial bandwidth and short offset, both zero; transport sequence. */
  lemma ExtensionElements(info: byte, frameNumber: Option<uint16>, transportSeq: uint16)
    ensures Elements(VideoExt(info, frameNumber, transportSeq))
         == Some([Element(3, [info] + if frameNumber.Some? then BE16(frameNumber.value) else [])]
                 + LaterElements(transportSeq))
  {
    var pad := if frameNumber.Some? then 3 else 1;
    var later := LaterBytes(transportSeq, pad);
    LaterRead(transportSeq, pad);
    ExtensionBytesAre(info, frameNumber, transportSeq);
    if frameNumber.Some? {
      ElementFirst(0x32, [info] + BE16(frameNumber.value), later, Some(LaterElements(transportSeq)));
    } else {
      NilRight([info]);
      ElementFirst(0x30, [info], later, Some(LaterElements(transportSeq)));
    }
  }

  // ------------------------------------------------------------------
  // Sender and receiver as values
  // ------------------------------------------------------------------

  datatype Sender = Sender(
    rtp: SessionState, keys: Keys, roll: Roll,
    frameNumber: uint16, transportSeq: uint16, keyframeRequired: bool, first: bool)

  /** What Setup leaves behind. */
  function FreshSender(rtp: SessionState, keys: Keys): Sender {
    Sender(rtp, keys, FRESH, 1, 0, true, true)
  }

  /** A unit goes out when the relay takes it and the decoder can start from it. */
  predicate Sends(keyframeRequired: bool, au: seq<byte>, connected: bool, buffered: nat) {
    && connected && au != []
    && (keyframeRequired ==> HasIdr(Split(au)))
    && Kept(Split(au)) != []
    && buffered <= CONGESTION_DROP_BYTES
  }

  /** The session after `n` packets of one timestamp. */
  function After(s: SessionState, n: nat): SessionState {
    s.(sequenceNumber := (s.sequenceNumber + n) % TWO16)
  }

  /** A payload as the next packet of the session, with the video extension. */
  function VideoPacket(s: SessionState, payload: seq<byte>, marker: bool, info: byte, number: Option<uint16>, tseq: uint16): RtpPacket {
    RtpPacket(NextPacket(s, payload, marker).header.(extension := true, extensionProfile := VIDEO_EXT_PROFILE,
                                                     extensionData := VideoExt(info, number, tseq)),
              payload)
  }

  /** Packet `i` of a unit: the marker on the last, the frame number on the first. */
  function NthPacket(s: SessionState, ps: seq<seq<byte>>, i: nat, info: byte, frameNum: uint16, tseq: nat): RtpPacket
    requires i < |ps|
  {
    VideoPacket(After(s, i), ps[i], i == |ps| - 1,
           info, if i == 0 then Some(frameNum) else None, (tseq + i) % TWO16)
  }

  /** The packets of payloads `ps`, as they leave for the relay. */
  function WirePackets(p: Prims, k: Keys, r: Roll, s: SessionState, ps: seq<seq<byte>>,
                info: byte, frameNum: uint16, tseq: nat): (wire: seq<seq<byte>>)
    requires |k.sessionSalt| == SALT_LEN
    ensures |wire| == |ps|
  {
    seq(|ps|, i requires 0 <= i < |ps| =>
      Seal(p, k, RollRun(r, s.sequenceNumber, i + 1).roc, NthPacket(s, ps, i, info, frameNum, tseq)))
  }

  datatype Fed = Fed(sender: Sender, wire: seq<seq<byte>>)

  /** The timestamp steps once a unit has gone out before. */
  function Stamped(s: Sender): SessionState {
    if s.first then s.rtp else s.rtp.(timestamp := (s.rtp.timestamp + RTP_STEP_SAMPLES) % TWO32)
  }

  function FrameInfo(idr: bool): byte {
    if idr then MEDIA_FRAME_IDR else MEDIA_FRAME_DELTA
  }

  /** The payloads `ps` of one unit, sent. */
  function Transmitted(p: Prims, s: Sender, ps: seq<seq<byte>>, idr: bool): (f: Fed)
    requires |s.keys.sessionSalt| == SALT_LEN
  {
    var rtp := Stamped(s);
    Fed(Sender(After(rtp, |ps|), s.keys, RollRun(s.roll, rtp.sequenceNumber, |ps|),
               (s.frameNumber + 1) % TWO16, (s.transportSeq + |ps|) % TWO16,
               s.keyframeRequired && !idr, false),
        WirePackets(p, s.keys, s.roll, rtp, ps, FrameInfo(idr), s.frameNumber, s.transportSeq))
  }

  /** What one call of FeedCaptured does. */
  function Feed(p: Prims, s: Sender, au: seq<byte>, connected: bool, buffered: nat): (f: Fed)
    requires |s.keys.sessionSalt| == SALT_LEN
  {
    if Sends(s.keyframeRequired, au, connected, buffered)
    then Transmitted(p, s, Packets(Pack(Kept(Split(au)))), HasIdr(Split(au)))
    else Fed(s, [])
  }

  datatype Receiver = Receiver(keys: Keys, roll: Roll, selfSsrc: uint32, depack: DepackState, frameBuf: seq<byte>)

  datatype Heard = Heard(receiver: Receiver, frames: seq<seq<byte>>)

  /** The decrypted packet: its units join the frame, which the marker closes. */
  function TakePayload(r: Receiver, payload: seq<byte>, marker: bool): (h: Heard) {
    var d := DepackStep(r.depack, payload);
    var buf := r.frameBuf + Join(d.out);
    if marker && buf != [] then Heard(r.(depack := d.state, frameBuf := []), [buf])
    else Heard(r.(depack := d.state, frameBuf := buf), [])
  }

  /** What one call of HandleRelayData does. */
  function Hear(p: Prims, r: Receiver, data: seq<byte>): (h: Heard)
    requires |r.keys.sessionSalt| == SALT_LEN && |data| >= 12
  {
    if U32(data[8..]) == r.selfSsrc then Heard(r, [])
    else
      var u := UnprotectStep(p, r.keys, r.roll, data);
      match u.packet
      case Err(_) => Heard(r.(roll := u.roll), [])
      case Ok(pkt) =>
        if pkt.payload == [] then Heard(r.(roll := u.roll), [])
        else TakePayload(r.(roll := u.roll), pkt.payload, pkt.header.marker)
  }

  // ------------------------------------------------------------------
  // The pipeline, updated in place
  // ------------------------------------------------------------------

  lemma {:induction false} KeptSnoc(ns: seq<seq<byte>>, n: seq<byte>)
    ensures Kept(ns + [n]) == if n == [] || NalType(n[0]) == 9 then Kept(ns) else Kept(ns) + [n]
  {
    if ns == [] {
      assert ns + [n] == [n];
    } else {
      assert (ns + [n])[1..] == ns[1..] + [n];
      KeptSnoc(ns[1..], n);
    }
  }

  lemma {:induction false} JoinSnoc(ns: seq<seq<byte>>, n: seq<byte>)
    ensures Join(ns + [n]) == Join(ns) + (START_CODE + n)
  {
    if ns == [] {
      assert ns + [n] == [n];
      NilRight(START_CODE + n);
      NilLeft(START_CODE + n);
    } else {
      assert (ns + [n])[1..] == ns[1..] + [n];
      JoinSnoc(ns[1..], n);
      Assoc(START_CODE + ns[0], Join(ns[1..]), START_CODE + n);
    }
  }

  lemma PackSnoc(ns: seq<seq<byte>>, n: seq<byte>)
    ensures Pack(ns + [n]) == if ns == [] then n else Pack(ns) + (START_CODE + n)
  {
    if ns == [] {
      assert ns + [n] == [n];
      NilRight(n);
    } else {
      assert (ns + [n])[1..] == ns[1..] + [n];
      JoinSnoc(ns[1..], n);
      Assoc(ns[0], Join(ns[1..]), START_CODE + n);
    }
  }

  lemma {:induction false} PackEmpty(ns: seq<seq<byte>>)
    ensures Kept(ns) == [] <==> Pack(Kept(ns)) == []
  {
    if ns != [] && (ns[0] == [] || NalType(ns[0][0]) == 9) {
      PackEmpty(ns[1..]);
    }
  }

  lemma WireUpTo(p: Prims, k: Keys, r: Roll, s: SessionState, ps: seq<seq<byte>>, info: byte, frameNum: uint16, tseq: nat,
                 i: nat, sent: seq<seq<byte>>)
    requires |k.sessionSalt| == SALT_LEN && i < |ps|
    requires sent == WirePackets(p, k, r, s, ps, info, frameNum, tseq)[..i]
    ensures sent + [Seal(p, k, RollRun(r, s.sequenceNumber, i + 1).roc, NthPacket(s, ps, i, info, frameNum, tseq))]
         == WirePackets(p, k, r, s, ps, info, frameNum, tseq)[..i + 1]
  {
  }

  /** Counting one by one wraps where counting at once does. */
  lemma NextWraps(from: nat, i: nat)
    ensures ((from + i) % TWO16 + 1) % TWO16 == (from + (i + 1)) % TWO16
  {
    var n := from + i;
    assert n == TWO16 * (n / TWO16) + n % TWO16;
    if n % TWO16 + 1 == TWO16 {
      assert n + 1 == TWO16 * (n / TWO16 + 1);
    } else {
      assert n + 1 == TWO16 * (n / TWO16) + (n % TWO16 + 1);
    }
  }

  lemma AfterNext(s: SessionState, i: nat)
    ensures After(s, 0) == s
    ensures Advance(After(s, i), 0) == After(s, i + 1)
  {
    NextWraps(s.sequenceNumber, i);
    var ts := s.timestamp + 0;
    assert ts % TWO32 == ts;
  }

  lemma RollRunNext(r: Roll, seq0: nat, i: nat)
    ensures RollRun(r, seq0, i + 1) == UpdateRoc(RollRun(r, seq0, i), (seq0 + i) % TWO16)
  {
  }

  /** The first loop of FeedCaptured: is there an IDR unit? */
  method FindIdr(nalus: seq<seq<byte>>) returns (idr: bool)
    ensures idr == HasIdr(nalus)
  {
    idr := false;
    for k := 0 to |nalus|
      invariant !idr
      invariant forall m :: 0 <= m < k ==> nalus[m] == [] || NalType(nalus[m][0]) != 5
    {
      if |nalus[k]| > 0 && NalType(nalus[k][0]) == 5 {
        return true;
      }
    }
  }

  /** The second loop of FeedCaptured: one unit out of all that are kept. */
  method PackUnits(nalus: seq<seq<byte>>) returns (packed: seq<byte>)
    ensures packed == Pack(Kept(nalus))
  {
    packed := [];
    for k := 0 to |nalus|
      invariant packed == Pack(Kept(nalus[..k]))
    {
      var n := nalus[k];
      assert nalus[..k + 1] == nalus[..k] + [n];
      KeptSnoc(nalus[..k], n);
      if |n| == 0 || NalType(n[0]) == 9 {
        continue;
      }
      PackSnoc(Kept(nalus[..k]), n);
      PackEmpty(nalus[..k]);
      if |packed| > 0 {
        packed := packed + (START_CODE + n);
      } else {
        packed := n;
      }
    }
    assert nalus[..|nalus|] == nalus;
  }

  /** FeedCaptured up to the packed unit, or to where it gives up. */
  method ChooseUnit(au: seq<byte>, connected: bool, buffered: nat, keyframeRequired: bool)
    returns (packed: Option<seq<byte>>, idr: bool)
    ensures packed == if Sends(keyframeRequired, au, connected, buffered) then Some(Pack(Kept(Split(au)))) else None
    ensures packed.Some? ==> idr == HasIdr(Split(au))
  {
    idr := false;
    if !connected || |au| == 0 {
      return None, idr;
    }
    var nalus := SplitAnnexB(au);
    PackEmpty(nalus);
    if |nalus| == 0 {
      return None, idr;
    }
    idr := FindIdr(nalus);
    if keyframeRequired && !idr {
      return None, idr;
    }
    var bytes := PackUnits(nalus);
    if |bytes| == 0 || buffered > CONGESTION_DROP_BYTES {
      return None, idr;
    }
    packed := Some(bytes);
  }

  /** The slots of a call's streams, and the one its own video is sent in. */
  const CALL_SLOTS: seq<nat> := [0, 1, 4, 2, 3, 5]
  const SLOT_WORD: nat := 2

  /** The SSRCs of a device's streams, slot by slot. */
  function SlotSsrcs(secureSsrc: (string, string, nat) -> uint32, callID: string, jid: string): (s: seq<uint32>)
    ensures |s| == |CALL_SLOTS|
  {
    seq(|CALL_SLOTS|, i requires 0 <= i < |CALL_SLOTS| => secureSsrc(callID, jid, CALL_SLOTS[i]))
  }

  /** The slots are 0, 1, 4, 2, 3 and 5, in this order. */
  lemma SlotsAre(secureSsrc: (string, string, nat) -> uint32, callID: string, jid: string)
    ensures var f := (slot: nat) => secureSsrc(callID, jid, slot);
            SlotSsrcs(secureSsrc, callID, jid) == [f(0), f(1), f(4), f(2), f(3), f(5)]
  {
  }

  /** The SSRC that video is sent under is among those the relay is told of. */
  lemma OwnSsrcTold(secureSsrc: (string, string, nat) -> uint32, callID: string, jid: string)
    ensures secureSsrc(callID, jid, SLOT_WORD) in SlotSsrcs(secureSsrc, callID, jid)
  {
    assert SlotSsrcs(secureSsrc, callID, jid)[3] == secureSsrc(callID, jid, SLOT_WORD);
  }

  method StreamSsrcs(secureSsrc: (string, string, nat) -> uint32, callID: string, ourJid: string, peerJid: string)
    returns (selfSsrcs: seq<uint32>, peerSsrcs: seq<uint32>)
    ensures selfSsrcs == SlotSsrcs(secureSsrc, callID, ourJid) && peerSsrcs == SlotSsrcs(secureSsrc, callID, peerJid)
  {
    selfSsrcs, peerSsrcs := [], [];
    for i := 0 to |CALL_SLOTS|
      invariant selfSsrcs == SlotSsrcs(secureSsrc, callID, ourJid)[..i]
      invariant peerSsrcs == SlotSsrcs(secureSsrc, callID, peerJid)[..i]
    {
      selfSsrcs := selfSsrcs + [secureSsrc(callID, ourJid, CALL_SLOTS[i])];
      peerSsrcs := peerSsrcs + [secureSsrc(callID, peerJid, CALL_SLOTS[i])];
    }
  }

  class SrtpSession {
    const sendCtx: SrtpContext
    const recvCtx: SrtpContext

    constructor (p: Prims, sendKM: KeyingMaterial, recvKM: KeyingMaterial, sendTagLen: int, recvTagLen: int)
      requires sendKM.Valid() && recvKM.Valid()
      ensures fresh(sendCtx) && fresh(recvCtx) && sendCtx != recvCtx
      ensures sendCtx.Valid() && sendCtx.prims == p && sendCtx.KeySet() == DeriveKeys(p, sendKM, sendTagLen)
      ensures recvCtx.Valid() && recvCtx.prims == p && recvCtx.KeySet() == DeriveKeys(p, recvKM, recvTagLen)
      ensures sendCtx.State() == FRESH && recvCtx.State() == FRESH
    {
      sendCtx := new SrtpContext(p, sendKM, sendTagLen);
      recvCtx := new SrtpContext(p, recvKM, recvTagLen);
    }
  }

  class Pipeline {
    const prims: Prims
    var rtp: RtpSession?
    var srtp: SrtpSession?
    var selfSsrc: uint32
    var depack: H264Depacketizer?
    var frameBuf: seq<byte>
    /** lastAUAt is set */
    var sentBefore: bool
    var frameNumber: uint16
    var transportSeq: uint16
    var keyframeRequired: bool

    ghost predicate Valid()
      reads this
    {
      && (rtp == null <==> srtp == null) && (srtp == null <==> depack == null)
      && (srtp != null ==>
            && srtp.sendCtx != srtp.recvCtx && srtp.sendCtx.Valid() && srtp.recvCtx.Valid()
            && srtp.sendCtx.prims == prims && srtp.recvCtx.prims == prims)
    }

    ghost predicate Ready()
      reads this
    {
      srtp != null
    }

    ghost function SenderState(): Sender
      requires Valid() && Ready()
      reads this, rtp, srtp.sendCtx
    {
      Sender(rtp.State(), srtp.sendCtx.KeySet(), srtp.sendCtx.State(),
             frameNumber, transportSeq, keyframeRequired, !sentBefore)
    }

    ghost function ReceiverState(): Receiver
      requires Valid() && Ready()
      reads this, depack, srtp.recvCtx
    {
      Receiver(srtp.recvCtx.KeySet(), srtp.recvCtx.State(), selfSsrc, depack.State(), frameBuf)
    }

    /** New */
    constructor (p: Prims)
      ensures Valid() && !Ready() && prims == p && frameBuf == []
    {
      prims := p;
      rtp, srtp, depack := null, null, null;
      selfSsrc, frameBuf, sentBefore := 0, [], false;
      frameNumber, transportSeq, keyframeRequired := 0, 0, false;
    }

    /** The locked part of Setup.  A depacketizer and a frame left by an earlier Setup stay. */
    method Install(session: SrtpSession, selfSsrc: uint32, seq0: uint16, ts0: uint32)
      requires Valid() && session.sendCtx != session.recvCtx && session.sendCtx.Valid() && session.recvCtx.Valid()
      requires session.sendCtx.prims == prims && session.recvCtx.prims == prims
      modifies this
      ensures Valid() && Ready() && srtp == session && frameBuf == old(frameBuf) && this.selfSsrc == selfSsrc
      ensures fresh(rtp) && rtp.State() == SessionState(selfSsrc, PAYLOAD_TYPE_H264, seq0, ts0)
      ensures frameNumber == 1 && transportSeq == 0 && keyframeRequired && !sentBefore
      ensures if old(Ready()) then depack == old(depack) else depack.State() == DepackState([], 0, 0, false)
    {
      srtp := session;
      this.selfSsrc := selfSsrc;
      rtp := new RtpSession(selfSsrc, PAYLOAD_TYPE_H264, 90000, 0, seq0, ts0);
      if depack == null {
        depack := new H264Depacketizer();
      }
      frameNumber, transportSeq, keyframeRequired, sentBefore := 1, 0, true, false;
    }

    /** Setup, with the derivation of an SSRC from call, device and slot, and the session's
        random starting points, as arguments, and what the relay is told of the streams as
        the result.  Keys that AES does not take change nothing. */
    method Setup(callID: string, ourJid: string, peerJid: string, sendKM: KeyingMaterial, recvKM: KeyingMaterial,
                 secureSsrc: (string, string, nat) -> uint32, seq0: uint16, ts0: uint32)
      returns (told: Option<(seq<uint32>, seq<uint32>)>)
      requires Valid() && sendKM.Salted() && recvKM.Salted()
      modifies this
      ensures Valid() && frameBuf == old(frameBuf)
      ensures told.Some? <==> sendKM.Accepted() && recvKM.Accepted()
      ensures told.None? ==>
        && rtp == old(rtp) && srtp == old(srtp) && depack == old(depack) && selfSsrc == old(selfSsrc)
        && frameNumber == old(frameNumber) && transportSeq == old(transportSeq)
        && keyframeRequired == old(keyframeRequired) && sentBefore == old(sentBefore)
      ensures told.Some? ==>
        && Ready() && selfSsrc == secureSsrc(callID, ourJid, SLOT_WORD)
        && told.value == (SlotSsrcs(secureSsrc, callID, ourJid), SlotSsrcs(secureSsrc, callID, peerJid))
        && var k, k' := DeriveKeys(prims, sendKM, SRTP_AUTH_TAG_LEN), DeriveKeys(prims, recvKM, SRTP_AUTH_TAG_LEN);
        && SenderState() == FreshSender(SessionState(selfSsrc, PAYLOAD_TYPE_H264, seq0, ts0), k)
        && ReceiverState() == Receiver(k', FRESH, selfSsrc, depack.State(), frameBuf)
        && if old(Ready()) then depack == old(depack) else depack.State() == DepackState([], 0, 0, false)
    {
      if !sendKM.Accepted() || !recvKM.Accepted() {
        return None;
      }
      var session := new SrtpSession(prims, sendKM, recvKM, SRTP_AUTH_TAG_LEN, SRTP_AUTH_TAG_LEN);
      var ours, peers := StreamSsrcs(secureSsrc, callID, ourJid, peerJid);
      Install(session, secureSsrc(callID, ourJid, SLOT_WORD), seq0, ts0);
      told := Some((ours, peers));
    }

    method Reset()
      modifies this
      ensures Valid() && !Ready() && frameBuf == []
    {
      rtp, srtp, depack := null, null, null;
      selfSsrc, frameBuf, sentBefore := 0, [], false;
      frameNumber, transportSeq, keyframeRequired := 1, 0, true;
    }

    /** What the last loop of FeedCaptured has done after `n` of its payloads. */
    ghost predicate SentUpTo(k: Keys, r0: Roll, s0: SessionState, wire: seq<seq<byte>>, tseq0: uint16,
                             n: nat, sent: seq<seq<byte>>, tseq: uint16)
      requires Valid() && Ready()
      reads this, rtp, srtp.sendCtx
    {
      && n <= |wire| && sent == wire[..n] && tseq == (tseq0 + n) % TWO16
      && rtp.State() == After(s0, n)
      && srtp.sendCtx.State() == RollRun(r0, s0.sequenceNumber, n) && srtp.sendCtx.KeySet() == k
    }

    /** The body of the last loop of FeedCaptured: one payload framed and protected. */
    method SendPayload(payload: seq<byte>, info: byte, number: Option<uint16>, tseq: uint16, last: bool)
      returns (protected: seq<byte>)
      requires Valid() && Ready()
      modifies rtp, srtp.sendCtx
      ensures protected
           == Seal(prims, srtp.sendCtx.KeySet(), srtp.sendCtx.roc, VideoPacket(old(rtp.State()), payload, last, info, number, tseq))
      ensures rtp.State() == Advance(old(rtp.State()), 0)
      ensures srtp.sendCtx.State() == UpdateRoc(old(srtp.sendCtx.State()), old(rtp.sequenceNumber))
    {
      var pkt := rtp.CreatePacketWithDuration(payload, 0, last);
      var ext := BuildWhatsappVideoExt(info, number, tseq);
      pkt := pkt.(header := pkt.header.(extension := true, extensionProfile := VIDEO_EXT_PROFILE, extensionData := ext));
      protected := srtp.sendCtx.Protect(pkt);
    }

    method SendNth(payloads: seq<seq<byte>>, i: nat, info: byte, frameNum: uint16, sent: seq<seq<byte>>, tseq: uint16,
                   ghost r0: Roll, ghost s0: SessionState, ghost tseq0: uint16)
      returns (sent': seq<seq<byte>>, tseq': uint16)
      requires Valid() && Ready() && i < |payloads|
      requires SentUpTo(srtp.sendCtx.KeySet(), r0, s0,
                 WirePackets(prims, srtp.sendCtx.KeySet(), r0, s0, payloads, info, frameNum, tseq0), tseq0, i, sent, tseq)
      modifies rtp, srtp.sendCtx
      ensures SentUpTo(srtp.sendCtx.KeySet(), r0, s0,
                WirePackets(prims, srtp.sendCtx.KeySet(), r0, s0, payloads, info, frameNum, tseq0), tseq0, i + 1, sent', tseq')
    {
      AfterNext(s0, i);
      NextWraps(tseq0, i);
      RollRunNext(r0, s0.sequenceNumber, i);
      var number := if i == 0 then Some(frameNum) else None;
      WireUpTo(prims, srtp.sendCtx.KeySet(), r0, s0, payloads, info, frameNum, tseq0, i, sent);
      ghost var pkt := NthPacket(s0, payloads, i, info, frameNum, tseq0);
      assert rtp.sequenceNumber == (s0.sequenceNumber + i) % TWO16;
      assert pkt == VideoPacket(rtp.State(), payloads[i], i == |payloads| - 1, info, number, tseq);
      var protected := SendPayload(payloads[i], info, number, tseq, i == |payloads| - 1);
      assert srtp.sendCtx.State() == RollRun(r0, s0.sequenceNumber, i + 1);
      assert protected == Seal(prims, srtp.sendCtx.KeySet(), srtp.sendCtx.roc, pkt);
      tseq' := (tseq + 1) % TWO16;
      sent' := sent + [protected];
    }

    /** The last loop of FeedCaptured: what is handed to the relay, in order. */
    method SendPayloads(payloads: seq<seq<byte>>, info: byte, frameNum: uint16, tseq0: uint16)
      returns (sent: seq<seq<byte>>, tseq: uint16)
      requires Valid() && Ready()
      modifies rtp, srtp.sendCtx
      ensures sent == WirePackets(prims, srtp.sendCtx.KeySet(), old(srtp.sendCtx.State()), old(rtp.State()),
                                  payloads, info, frameNum, tseq0)
      ensures tseq == (tseq0 + |payloads|) % TWO16
      ensures rtp.State() == After(old(rtp.State()), |payloads|)
      ensures srtp.sendCtx.State() == RollRun(old(srtp.sendCtx.State()), old(rtp.sequenceNumber), |payloads|)
    {
      sent, tseq := [], tseq0;
      ghost var k, s0, r0 := srtp.sendCtx.KeySet(), rtp.State(), srtp.sendCtx.State();
      ghost var wire := WirePackets(prims, k, r0, s0, payloads, info, frameNum, tseq0);
      AfterNext(s0, 0);
      for i := 0 to |payloads|
        invariant SentUpTo(k, r0, s0, wire, tseq0, i, sent, tseq)
      {
        sent, tseq := SendNth(payloads, i, info, frameNum, sent, tseq, r0, s0, tseq0);
      }
    }

    /** The rest of FeedCaptured, once the unit is packed: it is numbered, stamped and sent. */
    method Transmit(packed: seq<byte>, idr: bool) returns (sent: seq<seq<byte>>)
      requires Valid() && Ready()
      modifies this, rtp, srtp.sendCtx
      ensures Valid() && rtp == old(rtp) && srtp == old(srtp) && depack == old(depack)
      ensures selfSsrc == old(selfSsrc) && frameBuf == old(frameBuf)
      ensures Fed(SenderState(), sent) == Transmitted(prims, old(SenderState()), Packets(packed), idr)
    {
      var frameNum := frameNumber;
      if sentBefore {
        rtp.AdvanceTimestamp(RTP_STEP_SAMPLES);
      }
      assert rtp.State() == Stamped(old(SenderState()));
      var payloads := PackageH264NALU(packed);
      var tseq;
      sent, tseq := SendPayloads(payloads, FrameInfo(idr), frameNum, transportSeq);
      sentBefore := true;
      transportSeq := tseq;
      frameNumber := (frameNum + 1) % TWO16;
      if idr {
        keyframeRequired := false;
      }
    }

    /** FeedCaptured, with what the relay answers as arguments and what it is given
        to broadcast as the result. */
    method FeedCaptured(au: seq<byte>, connected: bool, buffered: nat) returns (sent: seq<seq<byte>>)
      requires Valid()
      modifies this, rtp, if srtp == null then {} else {srtp.sendCtx}
      ensures Valid() && rtp == old(rtp) && srtp == old(srtp) && depack == old(depack)
      ensures selfSsrc == old(selfSsrc) && frameBuf == old(frameBuf)
      ensures if old(Ready()) then Fed(SenderState(), sent) == Feed(prims, old(SenderState()), au, connected, buffered)
              else sent == []
    {
      if rtp == null || srtp == null {
        return [];
      }
      var packed, idr := ChooseUnit(au, connected, buffered, keyframeRequired);
      if packed.None? {
        return [];
      }
      sent := Transmit(packed.value, idr);
    }

    method AppendUnits(nalus: seq<seq<byte>>)
      modifies `frameBuf
      ensures frameBuf == old(frameBuf) + Join(nalus)
    {
      for k := 0 to |nalus|
        invariant frameBuf == old(frameBuf) + Join(nalus[..k])
      {
        assert nalus[..k + 1] == nalus[..k] + [nalus[k]];
        JoinSnoc(nalus[..k], nalus[k]);
        Assoc(old(frameBuf), Join(nalus[..k]), START_CODE + nalus[k]);
        frameBuf := frameBuf + (START_CODE + nalus[k]);
      }
      assert nalus[..|nalus|] == nalus;
    }

    /** The rest of HandleRelayData, once the packet is decrypted. */
    method TakeUnits(payload: seq<byte>, marker: bool) returns (frames: seq<seq<byte>>)
      requires Valid() && Ready()
      modifies `frameBuf, depack
      ensures Heard(ReceiverState(), frames) == TakePayload(old(ReceiverState()), payload, marker)
    {
      var nalus := depack.Depacketize(payload);
      AppendUnits(nalus);
      if marker && |frameBuf| > 0 {
        frames := [frameBuf];
        frameBuf := [];
      } else {
        frames := [];
      }
    }

    /** HandleRelayData; the frames handed to OnFrame are the result. */
    method HandleRelayData(data: seq<byte>) returns (frames: seq<seq<byte>>)
      requires Valid() && |data| >= 12
      modifies `frameBuf, depack, if srtp == null then {} else {srtp.recvCtx}
      ensures Valid()
      ensures if old(Ready()) then Heard(ReceiverState(), frames) == Hear(prims, old(ReceiverState()), data)
              else frames == [] && frameBuf == old(frameBuf)
    {
      if srtp == null || depack == null {
        return [];
      }
      if U32(data[8..]) == selfSsrc {
        return [];
      }
      var r := srtp.recvCtx.Unprotect(data);
      if r.Err? {
        return [];
      }
      var pkt := r.value;
      if |pkt.payload| == 0 {
        return [];
      }
      frames := TakeUnits(pkt.payload, pkt.header.marker);
    }
  }
}
