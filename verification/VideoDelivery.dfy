/** End-to-end delivery of video: what one pipeline is fed, the other emits
    (internal/voip/call/video/pipeline.go:120-236). */
module VideoDelivery {
  import opened Bytes
  import opened Wrappers
  import opened AnnexB
  import opened H264Packet
  import opened Rtp
  import opened Srtp
  import opened VideoPipeline

  // ------------------------------------------------------------------
  // The frame a list of payloads reassembles to
  // ------------------------------------------------------------------

  lemma {:induction false} DepackSnoc(s: DepackState, ps: seq<seq<byte>>, p: seq<byte>)
    ensures DepackAll(s, ps + [p]) == DepackStep(DepackAll(s, ps), p).state
    ensures Yields(s, ps + [p]) == Yields(s, ps) + [DepackStep(DepackAll(s, ps), p).out]
    decreases |ps|
  {
    if ps == [] {
      assert ps + [p] == [p] + [];
      YieldsCons(s, p, []);
    } else {
      var q, rest := ps[0], ps[1..];
      assert ps == [q] + rest;
      assert ps + [p] == [q] + (rest + [p]);
      YieldsCons(s, q, rest);
      YieldsCons(s, q, rest + [p]);
      DepackSnoc(DepackStep(s, q).state, rest, p);
      Assoc([DepackStep(s, q).out], Yields(DepackStep(s, q).state, rest),
            [DepackStep(DepackAll(s, ps), p).out]);
    }
  }

  /** The bytes a receiver collects from the units of several payloads. */
  function Collected(outs: seq<seq<seq<byte>>>): seq<byte> {
    if outs == [] then [] else Collected(outs[..|outs| - 1]) + Join(outs[|outs| - 1])
  }

  lemma CollectedSnoc(outs: seq<seq<seq<byte>>>, out: seq<seq<byte>>)
    ensures Collected(outs + [out]) == Collected(outs) + Join(out)
  {
    assert (outs + [out])[..|outs|] == outs;
  }

  lemma {:induction false} CollectedNil(outs: seq<seq<seq<byte>>>)
    requires forall k :: 0 <= k < |outs| ==> outs[k] == []
    ensures Collected(outs) == []
  {
    if outs != [] {
      CollectedNil(outs[..|outs| - 1]);
    }
  }

  lemma CollectedAtEnd(outs: seq<seq<seq<byte>>>, n: seq<byte>)
    requires OnlyAtEnd(outs, n)
    ensures Collected(outs) == START_CODE + n
  {
    var init := outs[..|outs| - 1];
    assert outs == init + [[n]];
    CollectedNil(init);
    CollectedSnoc(init, [n]);
    assert Join([n]) == START_CODE + n + [];
  }

  // ------------------------------------------------------------------
  // One unit through the cipher
  // ------------------------------------------------------------------

  /** Sender and receiver share keys, their rollover counts will agree on the
      sender's next packet, the receiver is not the sender, and no frame is open. */
  ghost predicate InStep(s: Sender, r: Receiver) {
    && |s.keys.sessionSalt| == SALT_LEN && r.keys == s.keys
    && UpdateRoc(r.roll, s.rtp.sequenceNumber) == UpdateRoc(s.roll, s.rtp.sequenceNumber)
    && r.selfSsrc != s.rtp.ssrc && s.rtp.payloadType < 128
    && r.frameBuf == []
  }

  /** Two pipelines just set up with matching keys. */
  lemma SetupInStep(p: Prims, km: KeyingMaterial, rtp: SessionState, selfSsrc: uint32, depack: DepackState)
    requires km.Valid() && selfSsrc != rtp.ssrc && rtp.payloadType < 128
    ensures var k := DeriveKeys(p, km, SRTP_AUTH_TAG_LEN);
            InStep(FreshSender(rtp, k), Receiver(k, FRESH, selfSsrc, depack, []))
  {
  }

  lemma PacketOnWire(s: SessionState, ps: seq<seq<byte>>, i: nat, info: byte, frameNum: uint16, tseq: nat)
    requires i < |ps| && s.payloadType < 128
    ensures var h := NthPacket(s, ps, i, info, frameNum, tseq).header;
            && |h.csrc| == h.csrcCount && Wire(h) && h.ssrc == s.ssrc
            && h.sequenceNumber == (s.sequenceNumber + i) % TWO16 && h.timestamp == s.timestamp
            && (h.marker <==> i == |ps| - 1)
  {
  }

  lemma SealedSsrc(p: Prims, k: Keys, roc: uint32, pkt: RtpPacket)
    requires |k.sessionSalt| == SALT_LEN
    ensures var data := Seal(p, k, roc, pkt); |data| >= 12 && U32(data[8..]) == pkt.header.ssrc
  {
    var h := pkt.header;
    var data := Seal(p, k, roc, pkt);
    var rest := data[12..];
    assert data == FixedBytes(h) + rest;
    ReadFixed(h, rest);
  }

  /** What a pipeline does with a datagram of the relay: runts are dropped before
      HandleRelayData is called (callmanager_media.go:122). */
  function Listen(p: Prims, r: Receiver, data: seq<byte>): (h: Heard) {
    if |data| < 12 || |r.keys.sessionSalt| != SALT_LEN then Heard(r, []) else Hear(p, r, data)
  }

  /** A packet heard in step with its sender: the payload is taken as it was sent. */
  lemma HearSealed(p: Prims, r: Receiver, roc: uint32, pkt: RtpPacket)
    requires |r.keys.sessionSalt| == SALT_LEN && pkt.header.ssrc != r.selfSsrc
    requires |pkt.header.csrc| == pkt.header.csrcCount && Wire(pkt.header) && pkt.payload != []
    requires UpdateRoc(r.roll, pkt.header.sequenceNumber).roc == roc
    ensures Listen(p, r, Seal(p, r.keys, roc, pkt))
         == TakePayload(r.(roll := UpdateRoc(r.roll, pkt.header.sequenceNumber)), pkt.payload, pkt.header.marker)
  {
    SealedSsrc(p, r.keys, roc, pkt);
    UnprotectSeal(p, r.keys, r.roll, roc, pkt);
  }

  /** The receiver after the first `n` packets of `wire`, and the frames it emitted. */
  function HearAll(listen: (Receiver, seq<byte>) -> Heard, r: Receiver, wire: seq<seq<byte>>, n: nat): (h: Heard)
    requires n <= |wire|
  {
    if n == 0 then Heard(r, [])
    else
      var before := HearAll(listen, r, wire, n - 1);
      var h := listen(before.receiver, wire[n - 1]);
      Heard(h.receiver, before.frames + h.frames)
  }

  /** The receiver in the middle of a unit: in step, collecting, nothing emitted. */
  function Midway(s: Sender, r: Receiver, ps: seq<seq<byte>>, n: nat): Receiver
    requires n <= |ps|
  {
    r.(roll := if n == 0 then r.roll else RollRun(s.roll, s.rtp.sequenceNumber, n),
       depack := DepackAll(r.depack, ps[..n]),
       frameBuf := Collected(Yields(r.depack, ps[..n])))
  }

  /** Taking payload `i`: one more payload collected, or the frame closed. */
  lemma TakeNth(s: Sender, r: Receiver, ps: seq<seq<byte>>, i: nat)
    requires i < |ps|
    ensures var mid := Midway(s, r, ps, i).(roll := RollRun(s.roll, s.rtp.sequenceNumber, i + 1));
            TakePayload(mid, ps[i], i == |ps| - 1) == Closed(Midway(s, r, ps, i + 1), i == |ps| - 1)
  {
    assert ps[..i + 1] == ps[..i] + [ps[i]];
    DepackSnoc(r.depack, ps[..i], ps[i]);
    CollectedSnoc(Yields(r.depack, ps[..i]), DepackStep(DepackAll(r.depack, ps[..i]), ps[i]).out);
  }

  /** The marker emits what was collected, if anything was. */
  function Closed(r: Receiver, marker: bool): Heard {
    if marker && r.frameBuf != [] then Heard(r.(frameBuf := []), [r.frameBuf]) else Heard(r, [])
  }

  lemma {:induction false} HeardUpTo(listen: (Receiver, seq<byte>) -> Heard, s: Sender, r: Receiver,
                                     ps: seq<seq<byte>>, wire: seq<seq<byte>>, n: nat)
    requires |wire| == |ps| && n <= |ps| && r.frameBuf == []
    requires forall i :: 0 <= i < |ps| ==>
      listen(Midway(s, r, ps, i), wire[i]) == Closed(Midway(s, r, ps, i + 1), i == |ps| - 1)
    ensures HearAll(listen, r, wire, n) == if n == 0 then Heard(r, []) else Closed(Midway(s, r, ps, n), n == |ps|)
  {
    if n > 0 {
      HeardUpTo(listen, s, r, ps, wire, n - 1);
      assert ps[..0] == [];
      assert Midway(s, r, ps, 0) == r;
      NilLeft(Closed(Midway(s, r, ps, n), n == |ps|).frames);
    }
  }

  /** Packet `i` of a unit, heard by a receiver that is in step with it. */
  lemma HearNth(p: Prims, mid: Receiver, roc: uint32, rtp: SessionState, ps: seq<seq<byte>>, i: nat,
                info: byte, frameNum: uint16, tseq: nat)
    requires i < |ps| && ps[i] != [] && rtp.payloadType < 128
    requires |mid.keys.sessionSalt| == SALT_LEN && rtp.ssrc != mid.selfSsrc
    requires UpdateRoc(mid.roll, (rtp.sequenceNumber + i) % TWO16).roc == roc
    ensures Listen(p, mid, Seal(p, mid.keys, roc, NthPacket(rtp, ps, i, info, frameNum, tseq)))
         == TakePayload(mid.(roll := UpdateRoc(mid.roll, (rtp.sequenceNumber + i) % TWO16)), ps[i], i == |ps| - 1)
  {
    PacketOnWire(rtp, ps, i, info, frameNum, tseq);
    HearSealed(p, mid, roc, NthPacket(rtp, ps, i, info, frameNum, tseq));
  }

  lemma MidwayRoll(s: Sender, r: Receiver, ps: seq<seq<byte>>, i: nat)
    requires InStep(s, r) && i < |ps|
    ensures UpdateRoc(Midway(s, r, ps, i).roll, (s.rtp.sequenceNumber + i) % TWO16)
         == RollRun(s.roll, s.rtp.sequenceNumber, i + 1)
  {
    assert s.rtp.sequenceNumber % TWO16 == s.rtp.sequenceNumber;
    assert RollRun(s.roll, s.rtp.sequenceNumber, 0) == s.roll;
  }

  lemma WireAt(p: Prims, k: Keys, r: Roll, s: SessionState, ps: seq<seq<byte>>, info: byte, frameNum: uint16, tseq: nat, i: nat)
    requires |k.sessionSalt| == SALT_LEN && i < |ps|
    ensures WirePackets(p, k, r, s, ps, info, frameNum, tseq)[i]
         == Seal(p, k, RollRun(r, s.sequenceNumber, i + 1).roc, NthPacket(s, ps, i, info, frameNum, tseq))
  {
  }

  /** Packet `i` heard midway at the rollover count of its sender. */
  lemma NthHeard(p: Prims, s: Sender, r: Receiver, rtp: SessionState, ps: seq<seq<byte>>, i: nat,
                 info: byte, frameNum: uint16, tseq: nat, data: seq<byte>)
    requires InStep(s, r) && rtp == s.rtp.(timestamp := rtp.timestamp) && i < |ps| && ps[i] != []
    requires data == Seal(p, s.keys, RollRun(s.roll, s.rtp.sequenceNumber, i + 1).roc, NthPacket(rtp, ps, i, info, frameNum, tseq))
    ensures Listen(p, Midway(s, r, ps, i), data) == Closed(Midway(s, r, ps, i + 1), i == |ps| - 1)
  {
    var mid, roll := Midway(s, r, ps, i), RollRun(s.roll, s.rtp.sequenceNumber, i + 1);
    MidwayRoll(s, r, ps, i);
    assert mid.keys == s.keys && mid.selfSsrc == r.selfSsrc && rtp.ssrc == s.rtp.ssrc;
    assert UpdateRoc(mid.roll, (rtp.sequenceNumber + i) % TWO16) == roll;
    HearNth(p, mid, roll.roc, rtp, ps, i, info, frameNum, tseq);
    TakeNth(s, r, ps, i);
  }

  /** Packet `i` of a unit that is sent: heard midway, taken as payload `i`. */
  lemma WireNth(p: Prims, s: Sender, r: Receiver, rtp: SessionState, ps: seq<seq<byte>>, i: nat,
                info: byte, frameNum: uint16, tseq: nat)
    requires InStep(s, r) && rtp == s.rtp.(timestamp := rtp.timestamp) && i < |ps| && ps[i] != []
    ensures Listen(p, Midway(s, r, ps, i), WirePackets(p, s.keys, s.roll, rtp, ps, info, frameNum, tseq)[i])
         == Closed(Midway(s, r, ps, i + 1), i == |ps| - 1)
  {
    WireAt(p, s.keys, s.roll, rtp, ps, info, frameNum, tseq, i);
    NthHeard(p, s, r, rtp, ps, i, info, frameNum, tseq, WirePackets(p, s.keys, s.roll, rtp, ps, info, frameNum, tseq)[i]);
  }

  /** A whole unit, heard by a receiver in step with its sender. */
  lemma UnitHeard(p: Prims, s: Sender, r: Receiver, rtp: SessionState, ps: seq<seq<byte>>,
                  info: byte, frameNum: uint16, tseq: nat)
    requires InStep(s, r) && rtp == s.rtp.(timestamp := rtp.timestamp) && ps != []
    requires forall i :: 0 <= i < |ps| ==> ps[i] != []
    ensures var wire := WirePackets(p, s.keys, s.roll, rtp, ps, info, frameNum, tseq);
            HearAll((q, d) => Listen(p, q, d), r, wire, |wire|) == Closed(Midway(s, r, ps, |ps|), true)
  {
    var wire := WirePackets(p, s.keys, s.roll, rtp, ps, info, frameNum, tseq);
    var listen := (q: Receiver, d: seq<byte>) => Listen(p, q, d);
    forall i | 0 <= i < |ps|
      ensures listen(Midway(s, r, ps, i), wire[i]) == Closed(Midway(s, r, ps, i + 1), i == |ps| - 1)
    {
      WireNth(p, s, r, rtp, ps, i, info, frameNum, tseq);
    }
    HeardUpTo(listen, s, r, ps, wire, |wire|);
  }

  /** Two units sent one after the other: sequence numbers and transport numbers go on
      without a gap, the timestamp steps by one frame, and so does the frame number. */
  lemma UnitsFollow(p: Prims, s: Sender, au: seq<byte>, connected: bool, buffered: nat)
    requires |s.keys.sessionSalt| == SALT_LEN && Sends(s.keyframeRequired, au, connected, buffered)
    ensures var f := Feed(p, s, au, connected, buffered);
            && f.wire != []
            && Stamped(f.sender).sequenceNumber == (Stamped(s).sequenceNumber + |f.wire|) % TWO16
            && Stamped(f.sender).timestamp == (Stamped(s).timestamp + RTP_STEP_SAMPLES) % TWO32
            && f.sender.transportSeq == (s.transportSeq + |f.wire|) % TWO16
            && f.sender.frameNumber == (s.frameNumber + 1) % TWO16
            && (f.sender.keyframeRequired <==> s.keyframeRequired && !HasIdr(Split(au)))
  {
    KeptNonEmpty(Split(au));
    PackEmpty(Split(au));
    assert Packets(Pack(Kept(Split(au)))) != [];
  }

  // ------------------------------------------------------------------
  // The frame that comes out
  // ------------------------------------------------------------------

  lemma {:induction false} KeptCanonical(ns: seq<seq<byte>>)
    requires Canonical(ns)
    ensures Canonical(Kept(ns))
  {
    if ns != [] {
      KeptCanonical(ns[1..]);
      CanonicalCons(ns[0], Kept(ns[1..]));
    }
  }

  lemma PackJoins(ns: seq<seq<byte>>)
    requires ns != []
    ensures START_CODE + Pack(ns) == Join(ns)
  {
    Assoc(START_CODE, ns[0], Join(ns[1..]));
  }

  /** What a frame with the kept units splits into: the sent unit's own NAL units,
      without the delimiters. */
  lemma FrameSplits(au: seq<byte>)
    ensures Split(Join(Kept(Split(au)))) == Kept(Split(au))
  {
    SplitCanonical(au);
    KeptCanonical(Split(au));
    SplitJoin(Kept(Split(au)));
  }

  lemma {:induction false} ZerosBack(n: seq<byte>, z: nat, k: nat)
    requires k <= z && z + 3 <= |n|
    requires n[z] == 0 && n[z + 1] == 0 && n[z + 2] == 0
    requires forall m :: 0 <= m < z ==> n[m] == n[m + 3]
    ensures n[k] == 0
    decreases z - k
  {
    if k + 3 <= z {
      ZerosBack(n, z, k + 3);
    }
  }

  /** A payload that starts with its own bytes from the third on, up to a start code. */
  lemma NeverRepeats(n: seq<byte>, z: nat, more: seq<byte>)
    requires z + 3 <= |n| && n != [] && n[0] != 0 && n == n[3..3 + z] + more
    ensures more != [] ==> |more| < 4 || more[..4] != START_CODE
  {
    if |more| >= 4 && more[..4] == START_CODE {
      forall m | 0 <= m < z ensures n[m] == n[m + 3] {
        assert n[m] == n[3..3 + z][m];
      }
      assert n[z] == more[0] && n[z + 1] == more[1] && n[z + 2] == more[2];
      assert more[0] == more[..4][0] && more[1] == more[..4][1] && more[2] == more[..4][2];
      ZerosBack(n, z, 0);
    }
  }

  lemma JoinStarts(ns: seq<seq<byte>>)
    ensures ns != [] ==> |Join(ns)| >= 4 && Join(ns)[..4] == START_CODE
    ensures ns == [] ==> Join(ns) == []
  {
  }

  /** A payload of type 24 is taken for an aggregate, and no aggregate reassembles
      to itself: its first unit would have to repeat the payload three bytes on. */
  lemma AggregateNeverItself(n: seq<byte>)
    requires n != [] && NalType(n[0]) == STAP_A
    ensures Join(StapUnits(n[1..])) != START_CODE + n
  {
    var units := StapUnits(n[1..]);
    if units != [] && Join(units) == START_CODE + n {
      var z := U16(n[1..]);
      var rest := units[1..];
      var joined := units[0] + Join(rest);
      Assoc(START_CODE, units[0], Join(rest));
      assert n == (START_CODE + n)[4..] == (START_CODE + joined)[4..] == joined;
      assert units[0] == n[1..][2..2 + z] == n[3..3 + z];
      JoinStarts(rest);
      NeverRepeats(n, z, Join(rest));
    }
  }

  lemma {:induction false} CollectedAllNil(outs: seq<seq<seq<byte>>>)
    requires AllNil(outs)
    ensures Collected(outs) == []
  {
    forall k | 0 <= k < |outs| ensures outs[k] == [] {
      AllNilAt(outs, k);
    }
    CollectedNil(outs);
  }

  /** With no fragment open, the bytes collected from a unit's packets are the unit
      behind a start code if and only if it is deliverable. */
  lemma CollectedIff(d: DepackState, n: seq<byte>)
    requires n != []
    ensures Deliverable(n) ==> Collected(Yields(d, Packets(n))) == START_CODE + n
    ensures !d.fuActive && !Deliverable(n) ==> Collected(Yields(d, Packets(n))) != START_CODE + n
  {
    var outs := Yields(d, Packets(n));
    if Deliverable(n) {
      RoundTrip(d, n);
      CollectedAtEnd(outs, n);
    } else if !d.fuActive && |n| <= MTU_PAYLOAD_MAX {
      YieldsCons(d, n, []);
      CollectedSnoc([], DepackStep(d, n).out);
      if NalType(n[0]) == STAP_A {
        AggregateNeverItself(n);
      }
    } else if !d.fuActive {
      OverlongLost(d, n);
      CollectedAllNil(outs);
    }
  }

  // ------------------------------------------------------------------
  // End to end
  // ------------------------------------------------------------------

  datatype Capture = Capture(au: seq<byte>, connected: bool, buffered: nat)

  /** FeedCaptured on any sender (its salt always has 14 bytes). */
  function FeedOne(p: Prims, s: Sender, c: Capture): Fed {
    if |s.keys.sessionSalt| != SALT_LEN then Fed(s, []) else Feed(p, s, c.au, c.connected, c.buffered)
  }

  /** The frame the peer owes for a capture: none unless it is sent. */
  function Owed(s: Sender, c: Capture): (frames: seq<seq<byte>>) {
    if Sends(s.keyframeRequired, c.au, c.connected, c.buffered) then [Join(Kept(Split(c.au)))] else []
  }

  predicate Carried(s: Sender, c: Capture) {
    Sends(s.keyframeRequired, c.au, c.connected, c.buffered) ==> Deliverable(Pack(Kept(Split(c.au))))
  }

  /** The payloads of a unit are never empty. */
  lemma PacketsNonEmpty(n: seq<byte>, i: nat)
    requires n != [] && i < |Packets(n)|
    ensures Packets(n)[i] != []
  {
    if |n| > MTU_PAYLOAD_MAX {
      FragmentsWellFormed(n[0], n[1..], 0, i);
    }
  }

  lemma {:induction false} KeptNonEmpty(ns: seq<seq<byte>>)
    ensures Kept(ns) != [] ==> Kept(ns)[0] != []
  {
    if ns != [] {
      KeptNonEmpty(ns[1..]);
    }
  }

  /** What the receiver makes of a unit that is sent, and that it stays in step. */
  lemma SentUnitHeard(p: Prims, s: Sender, r: Receiver, c: Capture)
    requires InStep(s, r) && Sends(s.keyframeRequired, c.au, c.connected, c.buffered)
    ensures var f := FeedOne(p, s, c);
            var h := HearAll((q, d) => Listen(p, q, d), r, f.wire, |f.wire|);
            var buf := Collected(Yields(r.depack, Packets(Pack(Kept(Split(c.au))))));
            InStep(f.sender, h.receiver) && h.frames == if buf == [] then [] else [buf]
  {
    var unit := Pack(Kept(Split(c.au)));
    var ps := Packets(unit);
    KeptNonEmpty(Split(c.au));
    forall i | 0 <= i < |ps| ensures ps[i] != [] {
      PacketsNonEmpty(unit, i);
    }
    UnitHeard(p, s, r, Stamped(s), ps, FrameInfo(HasIdr(Split(c.au))), s.frameNumber, s.transportSeq);
    assert ps[..|ps|] == ps;
  }

  /** One capture, end to end.  The peer emits the owed frame, and that frame splits
      into exactly the sent unit's NAL units without the delimiters, provided the
      packed unit is deliverable; with no fragment open at the peer, that condition
      is exact.  Nothing is emitted for a capture that is not sent, and the two
      pipelines stay in step. */
  lemma CaptureDelivered(p: Prims, s: Sender, r: Receiver, c: Capture)
    requires InStep(s, r)
    ensures var f := FeedOne(p, s, c);
            var h := HearAll((q, d) => Listen(p, q, d), r, f.wire, |f.wire|);
            && InStep(f.sender, h.receiver)
            && (Carried(s, c) ==> h.frames == Owed(s, c))
            && (!r.depack.fuActive && h.frames == Owed(s, c) ==> Carried(s, c))
            && (forall frame :: frame in Owed(s, c) ==> Split(frame) == Kept(Split(c.au)))
  {
    FrameSplits(c.au);
    if Sends(s.keyframeRequired, c.au, c.connected, c.buffered) {
      var kept := Kept(Split(c.au));
      SentUnitHeard(p, s, r, c);
      PackJoins(kept);
      KeptNonEmpty(Split(c.au));
      CollectedIff(r.depack, Pack(kept));
    }
  }

  /** The frames a receiver emits over a run of captures. */
  function Emitted(feed: (Sender, Capture) -> Fed, listen: (Receiver, seq<byte>) -> Heard,
                   s: Sender, r: Receiver, cs: seq<Capture>): seq<seq<byte>>
    decreases |cs|
  {
    if cs == [] then []
    else
      var f := feed(s, cs[0]);
      var h := HearAll(listen, r, f.wire, |f.wire|);
      h.frames + Emitted(feed, listen, f.sender, h.receiver, cs[1..])
  }

  function AllOwed(feed: (Sender, Capture) -> Fed, owed: (Sender, Capture) -> seq<seq<byte>>,
                   s: Sender, cs: seq<Capture>): seq<seq<byte>>
    decreases |cs|
  {
    if cs == [] then [] else owed(s, cs[0]) + AllOwed(feed, owed, feed(s, cs[0]).sender, cs[1..])
  }

  predicate AllCarried(feed: (Sender, Capture) -> Fed, carried: (Sender, Capture) -> bool, s: Sender, cs: seq<Capture>)
    decreases |cs|
  {
    cs == [] || (carried(s, cs[0]) && AllCarried(feed, carried, feed(s, cs[0]).sender, cs[1..]))
  }

  /** Any run, from the single step. */
  lemma {:induction false} RunFromStep(
      feed: (Sender, Capture) -> Fed, listen: (Receiver, seq<byte>) -> Heard,
      owed: (Sender, Capture) -> seq<seq<byte>>, carried: (Sender, Capture) -> bool,
      s: Sender, r: Receiver, cs: seq<Capture>)
    requires InStep(s, r) && AllCarried(feed, carried, s, cs)
    requires forall s', r', c :: InStep(s', r') ==>
      var f := feed(s', c);
      var h := HearAll(listen, r', f.wire, |f.wire|);
      InStep(f.sender, h.receiver) && (carried(s', c) ==> h.frames == owed(s', c))
    ensures Emitted(feed, listen, s, r, cs) == AllOwed(feed, owed, s, cs)
    decreases |cs|
  {
    if cs != [] {
      var f := feed(s, cs[0]);
      var h := HearAll(listen, r, f.wire, |f.wire|);
      RunFromStep(feed, listen, owed, carried, f.sender, h.receiver, cs[1..]);
    }
  }

  /** Every run: two pipelines that start in step stay in step, and the receiver
      emits, in order, exactly the frames owed for the captures that were sent,
      across any number of sequence number wraps. */
  lemma RunDelivered(p: Prims, s: Sender, r: Receiver, cs: seq<Capture>)
    requires InStep(s, r)
    requires AllCarried((q, c) => FeedOne(p, q, c), (q, c) => Carried(q, c), s, cs)
    ensures Emitted((q, c) => FeedOne(p, q, c), (q, d) => Listen(p, q, d), s, r, cs)
         == AllOwed((q, c) => FeedOne(p, q, c), (q, c) => Owed(q, c), s, cs)
  {
    var feed, listen := (q: Sender, c: Capture) => FeedOne(p, q, c), (q: Receiver, d: seq<byte>) => Listen(p, q, d);
    forall s', r', c | InStep(s', r')
      ensures var f := feed(s', c);
              var h := HearAll(listen, r', f.wire, |f.wire|);
              InStep(f.sender, h.receiver) && (Carried(s', c) ==> h.frames == Owed(s', c))
    {
      CaptureDelivered(p, s', r', c);
    }
    RunFromStep(feed, listen, (q, c) => Owed(q, c), (q, c) => Carried(q, c), s, r, cs);
  }
}
