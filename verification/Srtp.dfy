/** SRTP protection (internal/voip/media/srtp.go; sections 3.3.1 and 4.1.1 of RFC 3711).
    AES and HMAC-SHA1 are parameters: nothing is assumed about them. */
module Srtp {
  import opened Bytes
  import opened Wrappers
  import opened Rtp

  /** `aes(key, counter, j)` is byte `j` of the encrypted counter block;
      `mac(key, data, j)` is byte `j` of the authentication code. */
  datatype Prims = Prims(aes: (seq<byte>, nat, nat) -> byte, mac: (seq<byte>, seq<byte>, nat) -> byte)

  const SALT_LEN: nat := 14
  const SRTP_AUTH_TAG_LEN: nat := 4
  const LABEL_ENCRYPTION: byte := 0
  const LABEL_AUTH: byte := 1
  const LABEL_SALT: byte := 2
  const TWO128: nat := 0x1_0000_0000_0000_0000_0000_0000_0000_0000

  datatype KeyingMaterial = KeyingMaterial(masterKey: seq<byte>, masterSalt: seq<byte>)
  {
    /** A key of a length that AES takes. */
    predicate Accepted() { |masterKey| in {16, 24, 32} }

    /** A salt of which fourteen bytes can be taken. */
    predicate Salted() { |masterSalt| >= SALT_LEN }

    predicate Valid() { Accepted() && Salted() }
  }

  // ------------------------------------------------------------------
  // The key stream
  // ------------------------------------------------------------------

  function BigEndian(s: seq<byte>): (n: nat) {
    if s == [] then 0 else 256 * BigEndian(s[..|s| - 1]) + s[|s| - 1]
  }

  /** The counter block that encrypts byte `j` of a payload under `iv`. */
  function Counter(iv: seq<byte>, j: nat): (c: nat) {
    (BigEndian(iv) + j / 16) % TWO128
  }

  function KeyStream(p: Prims, key: seq<byte>, iv: seq<byte>, j: nat): byte {
    p.aes(key, Counter(iv, j), j % 16)
  }

  /** aesCtrXor */
  function XorStream(p: Prims, key: seq<byte>, iv: seq<byte>, src: seq<byte>): (dst: seq<byte>)
    ensures |dst| == |src|
  {
    seq(|src|, j requires 0 <= j < |src| => Xor(KeyStream(p, key, iv, j), src[j]))
  }

  lemma XorStreamTwice(p: Prims, key: seq<byte>, iv: seq<byte>, src: seq<byte>)
    ensures XorStream(p, key, iv, XorStream(p, key, iv, src)) == src
  {
    forall j | 0 <= j < |src| ensures XorStream(p, key, iv, XorStream(p, key, iv, src))[j] == src[j] {
      XorCancel(src[j], KeyStream(p, key, iv, j));
    }
  }

  /** The IV of section 4.1.1 of RFC 3711: salt, with the SSRC and the 48-bit packet
      index xored in, and sixteen zero bits for the block counter. */
  function IV(salt: seq<byte>, ssrc: uint32, index: nat): (iv: seq<byte>)
    requires |salt| == SALT_LEN
    ensures |iv| == 16
  {
    salt[..4] + XorSeq(salt[4..8], BE32(ssrc)) + XorSeq(salt[8..], BE48(index)) + [0, 0]
  }

  /** The low 48 bits of PutUint64. */
  function BE48(n: nat): (s: seq<byte>)
    ensures |s| == 6
  {
    BE16(n / TWO32) + BE32(n % TWO32)
  }

  function XorSeq(a: seq<byte>, b: seq<byte>): (c: seq<byte>)
    requires |a| == |b|
    ensures |c| == |a|
  {
    seq(|a|, k requires 0 <= k < |a| => Xor(a[k], b[k]))
  }

  /** deriveSrtpKey: the key stream of the master key, at the labelled IV. */
  function DeriveKey(p: Prims, km: KeyingMaterial, use: byte, length: nat): (k: seq<byte>)
    requires km.Valid()
    ensures |k| == length
  {
    var iv := km.masterSalt[..SALT_LEN][7 := Xor(km.masterSalt[7], use)] + [0, 0];
    XorStream(p, km.masterKey, iv, Zeros(length))
  }

  // ------------------------------------------------------------------
  // Contexts as values
  // ------------------------------------------------------------------

  datatype Keys = Keys(sessionKey: seq<byte>, sessionSalt: seq<byte>, authKey: seq<byte>, authTagLen: nat)

  /** roc, lastSeq and initialized. */
  datatype Roll = Roll(roc: uint32, lastSeq: uint16, initialized: bool)

  const FRESH: Roll := Roll(0, 0, false)

  function DeriveKeys(p: Prims, km: KeyingMaterial, authTagLen: int): (k: Keys)
    requires km.Valid()
    ensures |k.sessionSalt| == SALT_LEN
  {
    Keys(DeriveKey(p, km, LABEL_ENCRYPTION, 16), DeriveKey(p, km, LABEL_SALT, SALT_LEN),
         DeriveKey(p, km, LABEL_AUTH, 20), if authTagLen <= 0 then SRTP_AUTH_TAG_LEN else authTagLen)
  }

  /** updateRoc: the rollover count steps when the sequence number falls by more
      than half its range, and never steps back. */
  function UpdateRoc(r: Roll, seqno: uint16): (r': Roll)
    ensures r'.lastSeq == seqno && r'.initialized
  {
    if !r.initialized then r.(lastSeq := seqno, initialized := true)
    else if seqno - r.lastSeq < -32768 then Roll((r.roc + 1) % TWO32, seqno, true)
    else r.(lastSeq := seqno)
  }

  /** The state after `n` packets with consecutive sequence numbers from `seq0`. */
  function RollRun(r: Roll, seq0: nat, n: nat): Roll {
    if n == 0 then r else UpdateRoc(RollRun(r, seq0, n - 1), (seq0 + n - 1) % TWO16)
  }

  /** packetIndex */
  function PacketIndex(roc: uint32, seqno: uint16): (index: nat)
    ensures index < TWO48
  {
    roc * TWO16 + seqno
  }

  function MacByte(p: Prims, key: seq<byte>, data: seq<byte>, j: nat): byte {
    p.mac(key, data, j)
  }

  /** computeAuthTag: the code of the packet and its rollover count, cut to length. */
  function AuthTag(p: Prims, k: Keys, data: seq<byte>, roc: uint32): (tag: seq<byte>)
    ensures |tag| == k.authTagLen
  {
    seq(k.authTagLen, j requires 0 <= j => MacByte(p, k.authKey, data + BE32(roc), j))
  }

  /** The packet on the wire, protected at rollover count `roc`. */
  function Seal(p: Prims, k: Keys, roc: uint32, pkt: RtpPacket): (data: seq<byte>)
    requires |k.sessionSalt| == SALT_LEN
  {
    var h := pkt.header;
    var iv := IV(k.sessionSalt, h.ssrc, PacketIndex(roc, h.sequenceNumber));
    var clear := HeaderBytes(h) + XorStream(p, k.sessionKey, iv, pkt.payload);
    clear + AuthTag(p, k, clear, roc)
  }

  /** What Unprotect makes of `data` at rollover count `roc`: the header, and the
      payload between it and the tag, decrypted.  The tag is cut off, not compared. */
  function Open(p: Prims, k: Keys, roc: uint32, h: RtpHeader, data: seq<byte>): (pkt: RtpPacket)
    requires |k.sessionSalt| == SALT_LEN
    requires h.Size() + k.authTagLen <= |data|
  {
    var iv := IV(k.sessionSalt, h.ssrc, PacketIndex(roc, h.sequenceNumber));
    RtpPacket(h, XorStream(p, k.sessionKey, iv, data[h.Size()..|data| - k.authTagLen]))
  }

  /** The header, when Unprotect gets as far as decrypting. */
  function Readable(k: Keys, data: seq<byte>): (r: Result<RtpHeader>)
    ensures r.Ok? ==> r.value.Size() + k.authTagLen < |data|
  {
    if |data| < 12 then Err("packet_too_short")
    else
      var h := Decode(data);
      if h.Err? then h
      else if |data| - h.value.Size() - k.authTagLen <= 0 then Err("packet_too_short")
      else h
  }

  datatype Unprotected = Unprotected(roll: Roll, packet: Result<RtpPacket>)

  function UnprotectStep(p: Prims, k: Keys, r: Roll, data: seq<byte>): (u: Unprotected)
    requires |k.sessionSalt| == SALT_LEN
  {
    match Readable(k, data)
    case Err(e) => Unprotected(r, Err(e))
    case Ok(h) =>
      var r' := UpdateRoc(r, h.sequenceNumber);
      Unprotected(r', Ok(Open(p, k, r'.roc, h, data)))
  }

  // ------------------------------------------------------------------
  // The context, updated in place
  // ------------------------------------------------------------------

  class SrtpContext {
    const prims: Prims
    const sessionKey: seq<byte>
    const sessionSalt: seq<byte>
    const authKey: seq<byte>
    const authTagLen: nat
    var roc: uint32
    var lastSeq: uint16
    var initialized: bool

    ghost predicate Valid() {
      |sessionSalt| == SALT_LEN
    }

    function State(): Roll
      reads this
    {
      Roll(roc, lastSeq, initialized)
    }

    function KeySet(): Keys {
      Keys(sessionKey, sessionSalt, authKey, authTagLen)
    }

    constructor (p: Prims, km: KeyingMaterial, authTagLen: int)
      requires km.Valid()
      ensures Valid() && prims == p && KeySet() == DeriveKeys(p, km, authTagLen) && State() == FRESH
    {
      prims := p;
      sessionKey := DeriveKey(p, km, LABEL_ENCRYPTION, 16);
      sessionSalt := DeriveKey(p, km, LABEL_SALT, SALT_LEN);
      authKey := DeriveKey(p, km, LABEL_AUTH, 20);
      this.authTagLen := if authTagLen <= 0 then SRTP_AUTH_TAG_LEN else authTagLen;
      roc, lastSeq, initialized := 0, 0, false;
    }

    method UpdateRollover(seqno: uint16)
      modifies this
      ensures State() == UpdateRoc(old(State()), seqno)
    {
      if !initialized {
        lastSeq := seqno;
        initialized := true;
        return;
      }
      var diff := seqno - lastSeq;
      if diff < -32768 {
        roc := (roc + 1) % TWO32;
      }
      lastSeq := seqno;
    }

    method GenerateIV(ssrc: uint32, index: nat) returns (out: seq<byte>)
      requires Valid()
      ensures out == IV(sessionSalt, ssrc, index)
    {
      var iv := new byte[16](k => if 0 <= k < |sessionSalt| then sessionSalt[k] else 0);
      var ssrcBuf, idxBuf := BE32(ssrc), BE48(index);
      for k := 0 to 4
        invariant forall m :: 0 <= m < 16 ==>
          iv[m] == (if 4 <= m < 4 + k then Xor(sessionSalt[m], ssrcBuf[m - 4])
                    else if m < 14 then sessionSalt[m] else 0)
      {
        iv[4 + k] := Xor(iv[4 + k], ssrcBuf[k]);
      }
      for k := 0 to 6
        invariant forall m :: 0 <= m < 16 ==>
          iv[m] == (if 4 <= m < 8 then Xor(sessionSalt[m], ssrcBuf[m - 4])
                    else if 8 <= m < 8 + k then Xor(sessionSalt[m], idxBuf[m - 8])
                    else if m < 14 then sessionSalt[m] else 0)
      {
        iv[8 + k] := Xor(iv[8 + k], idxBuf[k]);
      }
      out := iv[..];
    }

    /** aesCtrXor into the caller's buffer at `offset`. */
    method XorInto(iv: seq<byte>, src: seq<byte>, buf: array<byte>, offset: nat)
      requires Valid() && offset + |src| <= buf.Length
      modifies buf
      ensures buf[..] == old(buf[..offset]) + XorStream(prims, sessionKey, iv, src) + old(buf[offset + |src|..])
    {
      for j := 0 to |src|
        invariant forall k :: 0 <= k < buf.Length ==>
          buf[k] == (if offset <= k < offset + j then Xor(KeyStream(prims, sessionKey, iv, k - offset), src[k - offset])
                     else old(buf[k]))
      {
        buf[offset + j] := Xor(KeyStream(prims, sessionKey, iv, j), src[j]);
      }
    }

    method ComputeAuthTag(data: seq<byte>, roc: uint32) returns (tag: seq<byte>)
      requires Valid()
      ensures tag == AuthTag(prims, KeySet(), data, roc)
    {
      var input := data + BE32(roc);
      tag := seq(authTagLen, j requires 0 <= j => MacByte(prims, authKey, input, j));
    }

    method Protect(packet: RtpPacket) returns (data: seq<byte>)
      requires Valid() && |packet.header.csrc| == packet.header.csrcCount
      modifies this
      ensures State() == UpdateRoc(old(State()), packet.header.sequenceNumber)
      ensures data == Seal(prims, KeySet(), roc, packet)
    {
      UpdateRollover(packet.header.sequenceNumber);
      var index := PacketIndex(roc, packet.header.sequenceNumber);
      var headerSize, n := packet.header.Size(), |packet.payload|;
      var output := new byte[headerSize + n + authTagLen](_ => 0);
      var written := Encode(packet.header, output);
      assert output[..headerSize] == HeaderBytes(packet.header);
      var iv := GenerateIV(packet.header.ssrc, index);
      XorInto(iv, packet.payload, output, headerSize);
      ghost var clear := HeaderBytes(packet.header) + XorStream(prims, sessionKey, iv, packet.payload);
      assert output[..headerSize + n] == clear;
      var tag := ComputeAuthTag(output[..headerSize + n], roc);
      Put(output, output[..], clear, headerSize + n, tag);
      NilRight(clear + tag);
      data := output[..];
    }

    method Unprotect(data: seq<byte>) returns (packet: Result<RtpPacket>)
      requires Valid()
      modifies this
      ensures Unprotected(State(), packet) == UnprotectStep(prims, KeySet(), old(State()), data)
    {
      if |data| < 12 {
        return Err("packet_too_short");
      }
      var header := DecodeRtpHeader(data);
      if header.Err? {
        return Err(header.error);
      }
      var h := header.value;
      var headerSize := h.Size();
      var payloadLen := |data| - headerSize - authTagLen;
      if payloadLen <= 0 {
        return Err("packet_too_short");
      }
      UpdateRollover(h.sequenceNumber);
      var index := PacketIndex(roc, h.sequenceNumber);
      var iv := GenerateIV(h.ssrc, index);
      var decrypted := new byte[payloadLen](_ => 0);
      XorInto(iv, data[headerSize..headerSize + payloadLen], decrypted, 0);
      assert decrypted[..] == XorStream(prims, sessionKey, iv, data[headerSize..headerSize + payloadLen]);
      packet := Ok(RtpPacket(h, decrypted[..]));
    }
  }

  // ------------------------------------------------------------------
  // Unprotecting undoes protecting
  // ------------------------------------------------------------------

  /** Behind a header that fits the wire, anything longer than a tag is decrypted, whatever
      the bytes in the tag's place are; anything else is refused. */
  lemma OpenAnyTag(p: Prims, k: Keys, roc: uint32, h: RtpHeader, body: seq<byte>, tag: seq<byte>)
    requires |k.sessionSalt| == SALT_LEN && |tag| == k.authTagLen
    requires |h.csrc| == h.csrcCount && Wire(h)
    ensures var data := HeaderBytes(h) + body + tag;
            var iv := IV(k.sessionSalt, h.ssrc, PacketIndex(roc, h.sequenceNumber));
            if body == [] then Readable(k, data).Err?
            else Readable(k, data) == Ok(h) && Open(p, k, roc, h, data) == RtpPacket(h, XorStream(p, k.sessionKey, iv, body))
  {
    var data := HeaderBytes(h) + body + tag;
    Assoc(HeaderBytes(h), body, tag);
    HeaderRoundTrip(h, body + tag);
    assert data[h.Size()..|data| - k.authTagLen] == body;
  }

  /** The tag is not compared: a protected packet is accepted with any other in its place,
      and comes out as it was protected. */
  lemma TagNotCompared(p: Prims, k: Keys, r: Roll, pkt: RtpPacket, tag: seq<byte>)
    requires |k.sessionSalt| == SALT_LEN && |tag| == k.authTagLen && pkt.payload != []
    requires |pkt.header.csrc| == pkt.header.csrcCount && Wire(pkt.header)
    ensures var r' := UpdateRoc(r, pkt.header.sequenceNumber);
            var data := Seal(p, k, r'.roc, pkt);
            && |data| >= |tag|
            && UnprotectStep(p, k, r, data[..|data| - |tag|] + tag) == Unprotected(r', Ok(pkt))
  {
    var h, roc := pkt.header, UpdateRoc(r, pkt.header.sequenceNumber).roc;
    var iv := IV(k.sessionSalt, h.ssrc, PacketIndex(roc, h.sequenceNumber));
    var cipher := XorStream(p, k.sessionKey, iv, pkt.payload);
    var data := Seal(p, k, roc, pkt);
    assert data[..|data| - |tag|] == HeaderBytes(h) + cipher;
    OpenAnyTag(p, k, roc, h, cipher, tag);
    XorStreamTwice(p, k.sessionKey, iv, pkt.payload);
  }

  /** At the sender's rollover count, a sealed packet opens to what was sealed,
      provided its header fits the wire and its payload is not empty; an empty
      payload is refused. */
  lemma OpenSeal(p: Prims, k: Keys, roc: uint32, pkt: RtpPacket)
    requires |k.sessionSalt| == SALT_LEN
    requires |pkt.header.csrc| == pkt.header.csrcCount && Wire(pkt.header)
    ensures var data := Seal(p, k, roc, pkt);
            if pkt.payload == [] then Readable(k, data).Err?
            else Readable(k, data) == Ok(pkt.header) && Open(p, k, roc, pkt.header, data) == pkt
  {
    var h := pkt.header;
    var iv := IV(k.sessionSalt, h.ssrc, PacketIndex(roc, h.sequenceNumber));
    var cipher := XorStream(p, k.sessionKey, iv, pkt.payload);
    var tag := AuthTag(p, k, HeaderBytes(h) + cipher, roc);
    OpenAnyTag(p, k, roc, h, cipher, tag);
    XorStreamTwice(p, k.sessionKey, iv, pkt.payload);
  }

  /** Section 4.2 of RFC 3711, on the wire: the bytes behind the header and the cipher text
      are the code of all bytes before them and of the rollover count. */
  lemma TagOnWire(p: Prims, k: Keys, roc: uint32, pkt: RtpPacket, j: nat)
    requires |k.sessionSalt| == SALT_LEN && |pkt.header.csrc| == pkt.header.csrcCount && j < k.authTagLen
    ensures var d := Seal(p, k, roc, pkt);
            var n := pkt.header.Size() + |pkt.payload|;
            |d| == n + k.authTagLen && d[n + j] == p.mac(k.authKey, d[..n] + BE32(roc), j)
  {
    var h := pkt.header;
    var iv := IV(k.sessionSalt, h.ssrc, PacketIndex(roc, h.sequenceNumber));
    var clear := HeaderBytes(h) + XorStream(p, k.sessionKey, iv, pkt.payload);
    var d := Seal(p, k, roc, pkt);
    assert d == clear + AuthTag(p, k, clear, roc);
    assert d[..|clear|] == clear && d[|clear| + j] == AuthTag(p, k, clear, roc)[j];
  }

  /** A receiver whose rollover count agrees with the sender's on this packet. */
  lemma UnprotectSeal(p: Prims, k: Keys, r: Roll, roc: uint32, pkt: RtpPacket)
    requires |k.sessionSalt| == SALT_LEN
    requires |pkt.header.csrc| == pkt.header.csrcCount && Wire(pkt.header)
    requires UpdateRoc(r, pkt.header.sequenceNumber).roc == roc
    ensures var u := UnprotectStep(p, k, r, Seal(p, k, roc, pkt));
            if pkt.payload == [] then u.packet.Err? && u.roll == r
            else u == Unprotected(UpdateRoc(r, pkt.header.sequenceNumber), Ok(pkt))
  {
    OpenSeal(p, k, roc, pkt);
  }
}
