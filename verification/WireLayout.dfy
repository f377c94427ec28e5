/** The bytes of RTP, H.264 payloads and SRTP by their positions, as the figures of
    section 5.1 of RFC 3550, sections 5.3, 5.7.1 and 5.8 of RFC 6184 and section 4.1.1 of
    RFC 3711 lay them out. */
module WireLayout {
  import opened Bytes
  import opened Division
  import opened Wrappers
  import opened Rtp
  import opened H264Packet
  import opened Srtp

  // ------------------------------------------------------------------
  // Integers
  // ------------------------------------------------------------------

  /** Two and four bytes as a number, the first being the highest. */
  function Word(a: byte, b: byte): nat {
    256 * (a as int) + b
  }

  function Long(a: byte, b: byte, c: byte, d: byte): nat {
    0x1_0000 * Word(a, b) + Word(c, d)
  }

  lemma BE16Bytes(n: uint16)
    ensures Word(BE16(n)[0], BE16(n)[1]) == n
  {
  }

  lemma BE32Bytes(n: uint32)
    ensures BE32(n) == BE16(n / 0x1_0000) + BE16(n % 0x1_0000)
    ensures var s := BE32(n); Word(s[0], s[1]) == n / 0x1_0000 && Word(s[2], s[3]) == n % 0x1_0000
  {
    BE16Bytes(n / 0x1_0000);
    BE16Bytes(n % 0x1_0000);
  }

  lemma HalfTwice(n: nat, p: nat)
    requires p > 0
    ensures n / (2 * p) == n / 2 / p
  {
    var q, r := n / (2 * p), n % (2 * p);
    assert n == 2 * (p * q) + r by { assert 2 * p * q == 2 * (p * q); }
    Quotient(n / 2, p, q, r / 2);
  }

  lemma XorHalves(a: nat, b: nat, k: nat)
    requires k > 0
    ensures XorBits(a, b, k) % 2 == (a + b) % 2
    ensures XorBits(a, b, k) / 2 == XorBits(a / 2, b / 2, k - 1)
  {
  }

  /** Bit `j` of an exclusive or is the sum of the two bits. */
  lemma {:induction false} XorBitAt(a: nat, b: nat, k: nat, j: nat)
    requires j < k
    ensures XorBits(a, b, k) / Pow2(j) % 2 == (a / Pow2(j) + b / Pow2(j)) % 2
  {
    XorHalves(a, b, k);
    if j > 0 {
      XorBitAt(a / 2, b / 2, k - 1, j - 1);
      HalfTwice(XorBits(a, b, k), Pow2(j - 1));
      HalfTwice(a, Pow2(j - 1));
      HalfTwice(b, Pow2(j - 1));
    }
  }

  // ------------------------------------------------------------------
  // RTP
  // ------------------------------------------------------------------

  /** The two bytes of flags. */
  predicate Flags(h: RtpHeader, b: seq<byte>)
    requires |b| >= 2
  {
    && b[0] / 64 == h.version % 4 && (b[0] / 32 % 2 == 1 <==> h.padding) && (b[0] / 16 % 2 == 1 <==> h.extension)
    && b[0] % 16 == h.csrcCount % 16
    && (b[1] / 128 == 1 <==> h.marker) && b[1] % 128 == h.payloadType % 128
  }

  /** The first two bytes of a header, bit by bit. */
  lemma HeaderFlags(h: RtpHeader)
    ensures |HeaderBytes(h)| >= 12 && Flags(h, HeaderBytes(h))
  {
    FirstByteBits(h);
    SecondByteBits(h);
    assert HeaderBytes(h)[0] == FirstByte(h) && HeaderBytes(h)[1] == SecondByte(h);
  }

  /** The rest of its fixed part, byte by byte. */
  lemma HeaderLayout(h: RtpHeader)
    ensures var b := HeaderBytes(h);
            && |b| >= 12
            && Word(b[2], b[3]) == h.sequenceNumber
            && Long(b[4], b[5], b[6], b[7]) == h.timestamp
            && Long(b[8], b[9], b[10], b[11]) == h.ssrc
  {
    BE16Bytes(h.sequenceNumber);
    BE32Bytes(h.timestamp);
    BE32Bytes(h.ssrc);
    var f := FixedBytes(h);
    assert HeaderBytes(h) == f + (CsrcBytes(h.csrc) + ExtensionBytes(h)) by {
      Assoc(f, CsrcBytes(h.csrc), ExtensionBytes(h));
    }
    assert f[2..4] == BE16(h.sequenceNumber) && f[4..8] == BE32(h.timestamp) && f[8..12] == BE32(h.ssrc);
  }

  /** What follows it: four bytes for each source, and the extension behind its profile
      and its length in words. */
  lemma HeaderTail(h: RtpHeader)
    ensures var b, n := HeaderBytes(h), 12 + 4 * |h.csrc|;
            && |b| == n + (if h.extension then 4 + |h.extensionData| else 0)
            && (h.extension ==>
                  && Word(b[n], b[n + 1]) == h.extensionProfile
                  && Word(b[n + 2], b[n + 3]) == |h.extensionData| / 4 % 0x1_0000
                  && b[n + 4..] == h.extensionData)
  {
    if h.extension {
      ExtensionLayout(h, []);
      NilRight(ExtensionBytes(h));
      NilRight(h.extensionData);
      var b, front := HeaderBytes(h), FixedBytes(h) + CsrcBytes(h.csrc);
      assert b == front + ExtensionBytes(h) && b[|front|..] == ExtensionBytes(h);
    }
  }

  lemma {:induction false} CsrcLayout(csrc: seq<uint32>, i: nat)
    requires i < |csrc|
    ensures CsrcBytes(csrc)[4 * i..4 * i + 4] == BE32(csrc[i])
  {
    if i > 0 {
      CsrcLayout(csrc[1..], i - 1);
      var rest := CsrcBytes(csrc[1..]);
      assert CsrcBytes(csrc)[4..] == rest;
      assert CsrcBytes(csrc)[4 * i..4 * i + 4] == rest[4 * (i - 1)..4 * (i - 1) + 4];
    }
  }

  /** A header is refused exactly when it is short, of another version, or ends in its list
      of sources; an extension that is cut short is read as none of its bytes. */
  lemma DecodeRefuses(buf: seq<byte>)
    ensures Decode(buf).Err? <==> |buf| < 12 || buf[0] / 64 != 2 || |buf| < 12 + 4 * (buf[0] % 16)
    ensures Decode(buf).Ok? ==>
              var h, n := Decode(buf).value, 12 + 4 * (buf[0] % 16);
              && (buf[0] / 16 % 2 == 0 || |buf| < n + 4 ==> h.extensionProfile == 0 && h.extensionData == [])
              && (buf[0] / 16 % 2 == 1 && |buf| >= n + 4 ==>
                    && h.extensionProfile == Word(buf[n], buf[n + 1])
                    && h.extensionData == var m := 4 * Word(buf[n + 2], buf[n + 3]);
                                          if |buf| >= n + 4 + m then buf[n + 4..n + 4 + m] else [])
  {
  }

  /** A session's packets are of version 2 and carry nothing but its counters. */
  lemma SessionPacket(s: SessionState, payload: seq<byte>, marker: bool)
    requires s.payloadType < 128
    ensures var p := NextPacket(s, payload, marker);
            var b := HeaderBytes(p.header);
            && p.payload == payload && |b| == 12 && b[0] == 0x80
            && p.header.csrc == [] && p.header.extensionProfile == 0 && p.header.extensionData == []
            && b[1] == (if marker then 0x80 else 0) + s.payloadType
            && Word(b[2], b[3]) == s.sequenceNumber
            && Long(b[4], b[5], b[6], b[7]) == s.timestamp
            && Long(b[8], b[9], b[10], b[11]) == s.ssrc
  {
    HeaderFlags(NextPacket(s, payload, marker).header);
    HeaderLayout(NextPacket(s, payload, marker).header);
    HeaderTail(NextPacket(s, payload, marker).header);
  }

  function Sent(s: SessionState, duration: nat, n: nat): SessionState {
    if n == 0 then s else Advance(Sent(s, duration, n - 1), duration)
  }

  /** After `n` packets of one length the sequence number has gone on by `n` and the timestamp
      by their lengths, each modulo its width. */
  lemma {:induction false} SessionRun(s: SessionState, duration: nat, n: nat)
    ensures Sent(s, duration, n)
         == SessionState(s.ssrc, s.payloadType, (s.sequenceNumber + n) % 0x1_0000, (s.timestamp + n * duration) % 0x1_0000_0000)
  {
    if n > 0 {
      SessionRun(s, duration, n - 1);
      AddMod(s.sequenceNumber + (n - 1), 1, 0x1_0000);
      AddMod(s.timestamp + (n - 1) * duration, duration, 0x1_0000_0000);
      assert (n - 1) * duration + duration == n * duration;
    }
  }

  // ------------------------------------------------------------------
  // H.264 payloads
  // ------------------------------------------------------------------

  lemma {:induction false} FragmentIs(h: byte, body: seq<byte>, offset: nat, i: nat)
    requires i < |Fragments(h, body, offset)|
    ensures offset + 798 * i < |body| && Fragments(h, body, offset)[i] == Fragment(h, body, offset + 798 * i)
    ensures i == |Fragments(h, body, offset)| - 1 <==> offset + 798 * (i + 1) >= |body|
    decreases i
  {
    if i > 0 {
      FragmentIs(h, body, offset + FRAG_SIZE, i - 1);
    }
  }

  /** Fragment `i` of a unit too long for one payload: type 28 with the unit's first three
      bits; the start bit on the first, the end bit on the last, and the unit's type; and
      798 bytes of the unit behind its header, or what is left of them. */
  lemma FragmentLayout(n: seq<byte>, i: nat)
    requires |n| > 800 && i < |Packets(n)|
    ensures var p, from := Packets(n)[i], 1 + 798 * i;
            && |p| >= 2 && from < |n|
            && p[0] % 32 == 28 && p[0] / 32 == n[0] / 32
            && (p[1] / 128 == 1 <==> i == 0) && (p[1] / 64 % 2 == 1 <==> i == |Packets(n)| - 1)
            && p[1] / 32 % 2 == 0 && p[1] % 32 == n[0] % 32
            && p[2..] == n[from..if from + 798 < |n| then from + 798 else |n|]
  {
    FragmentIs(n[0], n[1..], 0, i);
    var body := n[1..];
    var end := if 798 * i + 798 > |body| then |body| else 798 * i + 798;
    assert body[798 * i..end] == n[1 + 798 * i..1 + end];
  }

  lemma ShortUnit(n: seq<byte>)
    ensures n == [] ==> Packets(n) == []
    ensures 0 < |n| <= 800 ==> Packets(n) == [n]
  {
  }

  /** The bytes an aggregate takes. */
  function AggregateSize(ns: seq<seq<byte>>): nat {
    if ns == [] then 0 else 2 + |ns[0]| + AggregateSize(ns[1..])
  }

  lemma {:induction false} AggregateSizeIs(ns: seq<seq<byte>>)
    ensures |Aggregate(ns)| == AggregateSize(ns)
  {
    if ns != [] {
      AggregateSizeIs(ns[1..]);
    }
  }

  lemma {:induction false} MaxNriIs(ns: seq<seq<byte>>)
    ensures forall k :: 0 <= k < |ns| && ns[k] != [] ==> ns[k][0] / 32 % 4 <= MaxNri(ns) / 32
    ensures MaxNri(ns) > 0 ==> exists k :: 0 <= k < |ns| && ns[k] != [] && ns[k][0] / 32 % 4 == MaxNri(ns) / 32
  {
    if ns != [] {
      var init, last := ns[..|ns| - 1], ns[|ns| - 1];
      MaxNriIs(init);
      assert forall k :: 0 <= k < |init| ==> ns[k] == init[k];
      if MaxNri(ns) > 0 {
        if MaxNri(ns) == MaxNri(init) {
          var k :| 0 <= k < |init| && init[k] != [] && init[k][0] / 32 % 4 == MaxNri(init) / 32;
          assert ns[k] == init[k];
        } else {
          assert last != [] && last[0] / 32 % 4 == MaxNri(ns) / 32;
        }
      }
    }
  }

  /** An aggregate: type 24 with the highest reference indicator of its units, which follow
      each behind its length; there are two at least, none empty, and 800 bytes at most. */
  lemma AggregateLayout(ns: seq<seq<byte>>)
    ensures Aggregable(ns) <==>
      |ns| >= 2 && (forall k :: 0 <= k < |ns| ==> 0 < |ns[k]| <= 0xFFFF) && 1 + AggregateSize(ns) <= 800
    ensures Aggregable(ns) ==>
              var p := StapPayload(ns);
              && |p| >= 3 + |ns[0]| && p[0] % 32 == 24 && p[0] / 128 == 0 && p[0] / 32 == MaxNri(ns) / 32
              && Word(p[1], p[2]) == |ns[0]| && p[3..3 + |ns[0]|] == ns[0]
              && p[3 + |ns[0]|..] == Aggregate(ns[1..])
  {
    AggregateSizeIs(ns);
    if Aggregable(ns) {
      BE16Bytes(|ns[0]|);
      var p, n := StapPayload(ns), ns[0];
      assert p == [MaxNri(ns) + STAP_A] + (BE16(|n|) + n + Aggregate(ns[1..]));
      assert p[1..3] == BE16(|n|) && p[3..3 + |n|] == n && p[3 + |n|..] == Aggregate(ns[1..]);
    }
  }

  /** What becomes of a payload that is no fragment: one of type 1 to 23 is a unit, one of
      type 24 its units, and any other is dropped; and each ends a fragment left open.  An
      empty one does nothing. */
  lemma OtherPayloads(s: DepackState, p: seq<byte>)
    ensures p == [] ==> DepackStep(s, p) == DepackResult(s, [])
    ensures p != [] && !(p[0] % 32 == 28 && |p| >= 2) ==>
              && DepackStep(s, p).state == DepackState(s.fuBuf, s.fuType, s.fuNriF, false)
              && DepackStep(s, p).out == if 1 <= p[0] % 32 <= 23 then [p]
                                         else if p[0] % 32 == 24 then StapUnits(p[1..]) else []
  {
  }

  /** What becomes of a fragment: a first one opens a unit, of its indicator's first three
      bits and its own type, in place of any that is open; a later one is dropped unless one
      is open, and drops that one if it grows beyond 4 MiB; a last one gives the unit. */
  lemma FragmentPayload(s: DepackState, p: seq<byte>)
    requires |p| >= 2 && p[0] % 32 == 28
    ensures var r, start, end := DepackStep(s, p), p[1] / 128 == 1, p[1] / 64 % 2 == 1;
            var buf := if start then [p[0] / 32 * 32 + p[1] % 32] + p[2..] else s.fuBuf + p[2..];
            if !start && !s.fuActive then r == DepackResult(s, [])
            else if !start && |buf| > 4_194_304 then !r.state.fuActive && r.state.fuBuf == [] && r.out == []
            else if end then !r.state.fuActive && r.out == [buf]
            else r.state.fuActive && r.state.fuBuf == buf && r.out == []
  {
  }

  /** The units of an aggregate: each behind its length in two bytes, up to one that is
      empty or longer than what is left. */
  lemma {:induction false} AggregateUnits(body: seq<byte>)
    ensures |body| < 2 ==> StapUnits(body) == []
    ensures |body| >= 2 ==>
              var n := Word(body[0], body[1]);
              StapUnits(body) == if 0 < n <= |body| - 2 then [body[2..2 + n]] + StapUnits(body[2 + n..]) else []
  {
    if |body| >= 2 {
      var n := Word(body[0], body[1]);
      assert U16(body) == n;
      if 0 < n <= |body| - 2 {
        NextUnit(body, n, StapUnits(body[2 + n..]));
      }
    }
  }

  lemma NextUnit(body: seq<byte>, n: nat, more: seq<seq<byte>>)
    requires |body| >= 2 && U16(body) == n && 0 < n <= |body| - 2 && more == StapUnits(body[2 + n..])
    ensures StapUnits(body) == [body[2..2 + n]] + more
  {
  }

  /** The units a peer can recover. */
  lemma DeliverableIff(n: seq<byte>)
    ensures Deliverable(n) <==> n != [] && (|n| <= 800 ==> 1 <= n[0] % 32 <= 23) && |n| <= 4_194_304
  {
  }

  // ------------------------------------------------------------------
  // SRTP
  // ------------------------------------------------------------------

  /** The IV, byte by byte: the salt, masked by the SSRC from the fifth byte on and by the
      48-bit index from the ninth, and two zero bytes. */
  lemma IVLayout(salt: seq<byte>, ssrc: uint32, index: nat, k: nat)
    requires |salt| == 14 && index < 0x1_0000_0000_0000 && k < 16
    ensures var iv := IV(salt, ssrc, index);
            iv[k] == if k < 4 then salt[k]
                     else if k < 8 then Xor(salt[k], BE32(ssrc)[k - 4])
                     else if k < 10 then Xor(salt[k], BE16(index / 0x1_0000_0000)[k - 8])
                     else if k < 14 then Xor(salt[k], BE32(index % 0x1_0000_0000)[k - 10])
                     else 0
  {
  }

  /** A protected packet: the header as it is, then each byte of the payload masked by AES
      under the session key, sixteen bytes to a counter that starts at the IV of the SSRC
      and of rollover count times 65536 plus sequence number. */
  lemma SealLayout(p: Prims, k: Keys, roc: uint32, pkt: RtpPacket, j: nat)
    requires |k.sessionSalt| == 14 && |pkt.header.csrc| == pkt.header.csrcCount && j < |pkt.payload|
    ensures var d, h := Seal(p, k, roc, pkt), pkt.header;
            var iv := IV(k.sessionSalt, h.ssrc, roc * 0x1_0000 + h.sequenceNumber);
            && |d| == h.Size() + |pkt.payload| + k.authTagLen
            && d[..h.Size()] == HeaderBytes(h)
            && d[h.Size() + j] == Xor(p.aes(k.sessionKey, (BigEndian(iv) + j / 16) % 0x1_0000_0000_0000_0000_0000_0000_0000_0000, j % 16), pkt.payload[j])
  {
    var h := pkt.header;
    var iv := IV(k.sessionSalt, h.ssrc, PacketIndex(roc, h.sequenceNumber));
    var cipher := XorStream(p, k.sessionKey, iv, pkt.payload);
    var clear := HeaderBytes(h) + cipher;
    var d := Seal(p, k, roc, pkt);
    assert d == clear + AuthTag(p, k, clear, roc);
    assert d[..h.Size()] == HeaderBytes(h) && d[h.Size() + j] == clear[h.Size() + j] == cipher[j];
  }

  /** AES takes keys of 16, 24 or 32 bytes, and fourteen bytes are taken of the salt. */
  lemma KeyLengths(km: KeyingMaterial)
    ensures km.Valid() <==> (|km.masterKey| == 16 || |km.masterKey| == 24 || |km.masterKey| == 32) && |km.masterSalt| >= 14
  {
  }

  /** A big-endian number, from its first byte. */
  lemma {:induction false} BigEndianFirst(s: seq<byte>)
    requires s != []
    ensures |s| == 1 ==> BigEndian(s) == s[0]
    ensures |s| > 1 ==> BigEndian(s) == 256 * BigEndian(s[..|s| - 1]) + s[|s| - 1]
  {
    if |s| == 1 {
      assert BigEndian(s[..0]) == 0;
    }
  }

  /** The key stream of the master key from the salt with the label in its eighth byte. */
  predicate Derived(p: Prims, km: KeyingMaterial, use: byte, key: seq<byte>)
    requires |km.masterSalt| >= 14
  {
    var iv := km.masterSalt[..7] + [Xor(km.masterSalt[7], use)] + km.masterSalt[8..14] + [0, 0];
    forall j :: 0 <= j < |key| ==> key[j] == Xor(p.aes(km.masterKey, (BigEndian(iv) + j / 16) % 0x1_0000_0000_0000_0000_0000_0000_0000_0000, j % 16), 0)
  }

  /** Section 4.3.1 of RFC 3711: labels 0, 1 and 2 for the cipher key, the authentication
      key and the salt; and the length of the tag, four unless it is given. */
  lemma KeysLayout(p: Prims, km: KeyingMaterial, authTagLen: int)
    requires km.Valid()
    ensures var k := DeriveKeys(p, km, authTagLen);
            && |k.sessionKey| == 16 && Derived(p, km, 0, k.sessionKey)
            && |k.authKey| == 20 && Derived(p, km, 1, k.authKey)
            && |k.sessionSalt| == 14 && Derived(p, km, 2, k.sessionSalt)
            && k.authTagLen == if authTagLen <= 0 then 4 else authTagLen
  {
    DerivedIs(p, km, 0, 16);
    DerivedIs(p, km, 1, 20);
    DerivedIs(p, km, 2, 14);
  }

  lemma DerivedIs(p: Prims, km: KeyingMaterial, use: byte, n: nat)
    requires km.Valid()
    ensures Derived(p, km, use, DeriveKey(p, km, use, n))
  {
    var salt := km.masterSalt;
    assert salt[..SALT_LEN][7 := Xor(salt[7], use)] + [0, 0] == salt[..7] + [Xor(salt[7], use)] + salt[8..14] + [0, 0];
  }
}
