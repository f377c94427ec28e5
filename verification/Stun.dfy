/** STUN messages: the builders and the parser (internal/voip/transport/stun.go).
    HMAC-SHA1 and CRC-32 are parameters. */
module Stun {
  import opened Bytes
  import opened Wrappers

  const MAGIC_COOKIE: uint32 := 0x2112_a442
  const FINGERPRINT_XOR: uint32 := 0x5354_554e
  const BINDING_REQUEST: uint16 := 0x0001
  const ALLOCATE_REQUEST: uint16 := 0x0003

  const USERNAME: uint16 := 0x0006
  const MESSAGE_INTEGRITY: uint16 := 0x0008
  const ERROR_CODE: uint16 := 0x0009
  const XOR_RELAYED_ADDRESS: uint16 := 0x0016
  const PRIORITY: uint16 := 0x0024
  const SENDER_SUBSCRIPTIONS: uint16 := 0x4000
  const SSRC_LIST: uint16 := 0x4024
  const STABLE_ROUTING_CONN_ID: uint16 := 0x4033
  const FINGERPRINT: uint16 := 0x8028
  const ICE_CONTROLLING: uint16 := 0x802a
  const DEFAULT_ICE_PRIORITY: uint32 := 16_777_215

  const HEADER_LEN: nat := 20
  const TXID_LEN: nat := 12
  const MAC_LEN: nat := 20

  datatype Attribute = Attribute(attrType: uint16, data: seq<byte>)

  /** HMAC-SHA1 byte by byte, and CRC-32. */
  datatype Prims = Prims(hmac: (seq<byte>, seq<byte>, nat) -> byte, crc32: seq<byte> -> uint32)

  function MacByte(p: Prims, key: seq<byte>, data: seq<byte>, j: nat): byte {
    p.hmac(key, data, j)
  }

  function Hmac(p: Prims, key: seq<byte>, data: seq<byte>): (mac: seq<byte>)
    ensures |mac| == MAC_LEN
  {
    seq(MAC_LEN, j requires 0 <= j => MacByte(p, key, data, j))
  }

  // ------------------------------------------------------------------
  // Encoding
  // ------------------------------------------------------------------

  function Padding(n: nat): (pad: nat)
    ensures pad < 4
  {
    (4 - n % 4) % 4
  }

  function EncodedAttribute(a: Attribute): (s: seq<byte>)
    ensures |s| == 4 + |a.data| + Padding(|a.data|)
  {
    BE16(a.attrType) + BE16(|a.data|) + (a.data + Zeros(Padding(|a.data|)))
  }

  method EncodeAttribute(attrType: uint16, data: seq<byte>) returns (out: seq<byte>)
    ensures out == EncodedAttribute(Attribute(attrType, data))
  {
    out := BE16(attrType) + BE16(|data|);
    var padding := (4 - |data| % 4) % 4;
    out := out + data;
    if padding > 0 {
      out := out + Zeros(padding);
    }
    ghost var head := BE16(attrType) + BE16(|data|);
    Assoc(head, data, Zeros(padding));
    NilRight(head + data);
    assert padding == 0 ==> Zeros(0) == [];
  }

  function EncodedAll(attrs: seq<Attribute>): (s: seq<byte>) {
    if attrs == [] then [] else EncodedAttribute(attrs[0]) + EncodedAll(attrs[1..])
  }

  lemma PaddedAligned(n: nat)
    ensures (n + Padding(n)) % 4 == 0
  {
  }

  lemma SumAligned(m: nat, n: nat)
    requires m % 4 == 0 && n % 4 == 0
    ensures (4 + m + n) % 4 == 0
  {
  }

  /** Section 5 of RFC 8489: every message is padded to a multiple of four bytes. */
  lemma {:induction false} EncodedAligned(attrs: seq<Attribute>)
    ensures |EncodedAll(attrs)| % 4 == 0
  {
    if attrs != [] {
      EncodedAligned(attrs[1..]);
      var n := |attrs[0].data|;
      PaddedAligned(n);
      SumAligned(n + Padding(n), |EncodedAll(attrs[1..])|);
    }
  }

  lemma {:induction false} EncodedSnoc(attrs: seq<Attribute>, a: Attribute)
    ensures EncodedAll(attrs + [a]) == EncodedAll(attrs) + EncodedAttribute(a)
  {
    if attrs == [] {
      assert attrs + [a] == [a];
      NilRight(EncodedAttribute(a));
      NilLeft(EncodedAttribute(a));
    } else {
      assert (attrs + [a])[0] == attrs[0] && (attrs + [a])[1..] == attrs[1..] + [a];
      EncodedSnoc(attrs[1..], a);
      Assoc(EncodedAttribute(attrs[0]), EncodedAll(attrs[1..]), EncodedAttribute(a));
    }
  }

  function Header(msgType: uint16, length: nat, txid: seq<byte>): (h: seq<byte>)
    ensures |h| == 8 + |txid|
  {
    BE16(msgType) + (BE16(length) + (BE32(MAGIC_COOKIE) + txid))
  }

  /** The twenty bytes of a header, written into a buffer. */
  method WriteHeader(msgType: uint16, length: nat, txid: seq<byte>) returns (h: seq<byte>)
    requires |txid| == TXID_LEN
    ensures h == Header(msgType, length, txid)
  {
    var fixed := BE16(msgType) + BE16(length) + BE32(MAGIC_COOKIE);
    var header := new byte[HEADER_LEN](k => if 0 <= k < |fixed| then fixed[k] else 0);
    for k := 0 to TXID_LEN
      invariant forall m :: 0 <= m < 8 + k ==> header[m] == (if m < 8 then fixed[m] else txid[m - 8])
    {
      header[8 + k] := txid[k];
    }
    h := header[..];
    assert h == fixed + txid;
  }

  function Xor32(a: uint32, b: uint32): (c: uint32) {
    Pow2At32();
    XorBits(a, b, 32)
  }

  lemma Pow2At32()
    ensures Pow2(32) == TWO32
  {
    assert Pow2(4) == 16;
    assert Pow2(8) == 256;
    assert Pow2(12) == 4096;
    assert Pow2(16) == 65536;
    assert Pow2(20) == 0x10_0000;
    assert Pow2(24) == 0x100_0000;
    assert Pow2(28) == 0x1000_0000;
  }

  /** The message-integrity attribute of a message that so far holds `attrs`. */
  function IntegrityOf(p: Prims, key: seq<byte>, msgType: uint16, txid: seq<byte>, attrs: seq<byte>): Attribute {
    Attribute(MESSAGE_INTEGRITY, Hmac(p, key, Header(msgType, |attrs| + 24, txid) + attrs))
  }

  function FingerprintOf(p: Prims, msgType: uint16, txid: seq<byte>, attrs: seq<byte>): Attribute {
    Attribute(FINGERPRINT, BE32(Xor32(p.crc32(Header(msgType, |attrs| + 8, txid) + attrs), FINGERPRINT_XOR)))
  }

  /** The attributes of a message, with those that seal it. */
  function Sealed(p: Prims, msgType: uint16, attrs: seq<Attribute>, txid: seq<byte>, key: Option<seq<byte>>, fp: bool):
    seq<Attribute>
  {
    var a1 := if key.Some? then attrs + [IntegrityOf(p, key.value, msgType, txid, EncodedAll(attrs))] else attrs;
    if fp then a1 + [FingerprintOf(p, msgType, txid, EncodedAll(a1))] else a1
  }

  function Message(msgType: uint16, body: seq<byte>, txid: seq<byte>): (msg: seq<byte>) {
    Header(msgType, |body|, txid) + body
  }

  /** Any bytes of attributes, with the seals behind them. */
  function SealedBytes(p: Prims, msgType: uint16, attrs: seq<byte>, txid: seq<byte>, key: Option<seq<byte>>, fp: bool):
    seq<byte>
  {
    var a1 := if key.Some? then attrs + EncodedAttribute(IntegrityOf(p, key.value, msgType, txid, attrs)) else attrs;
    if fp then a1 + EncodedAttribute(FingerprintOf(p, msgType, txid, a1)) else a1
  }

  /** Sealing the encoding of attributes is encoding the sealed attributes. */
  lemma SealedEncoded(p: Prims, msgType: uint16, attrs: seq<Attribute>, txid: seq<byte>, key: Option<seq<byte>>, fp: bool)
    ensures SealedBytes(p, msgType, EncodedAll(attrs), txid, key, fp) == EncodedAll(Sealed(p, msgType, attrs, txid, key, fp))
  {
    var a1 := attrs;
    if key.Some? {
      var mi := IntegrityOf(p, key.value, msgType, txid, EncodedAll(attrs));
      EncodedSnoc(attrs, mi);
      a1 := attrs + [mi];
    }
    if fp {
      EncodedSnoc(a1, FingerprintOf(p, msgType, txid, EncodedAll(a1)));
    }
  }

  method AddIntegrity(p: Prims, msgType: uint16, body: seq<byte>, txid: seq<byte>, key: seq<byte>)
    returns (sealed: seq<byte>)
    requires |txid| == TXID_LEN
    ensures sealed == body + EncodedAttribute(IntegrityOf(p, key, msgType, txid, body))
  {
    var hmacHeader := WriteHeader(msgType, |body| + 24, txid);
    var mac := Hmac(p, key, hmacHeader + body);
    var miAttr := EncodeAttribute(MESSAGE_INTEGRITY, mac);
    sealed := body + miAttr;
  }

  method AddFingerprint(p: Prims, msgType: uint16, body: seq<byte>, txid: seq<byte>) returns (sealed: seq<byte>)
    requires |txid| == TXID_LEN
    ensures sealed == body + EncodedAttribute(FingerprintOf(p, msgType, txid, body))
  {
    var crcHeader := WriteHeader(msgType, |body| + 8, txid);
    var fingerprint := Xor32(p.crc32(crcHeader + body), FINGERPRINT_XOR);
    var fpAttr := EncodeAttribute(FINGERPRINT, BE32(fingerprint));
    sealed := body + fpAttr;
  }

  /** buildStunMessage, for any bytes of attributes. */
  method BuildStunMessage(p: Prims, msgType: uint16, attrsData: seq<byte>, txid: seq<byte>, integrityKey: Option<seq<byte>>,
                          includeFingerprint: bool) returns (msg: seq<byte>)
    requires |txid| == TXID_LEN
    ensures msg == Message(msgType, SealedBytes(p, msgType, attrsData, txid, integrityKey, includeFingerprint), txid)
  {
    var body := attrsData;
    if integrityKey.Some? {
      body := AddIntegrity(p, msgType, body, txid, integrityKey.value);
    }
    if includeFingerprint {
      body := AddFingerprint(p, msgType, body, txid);
    }
    var header := WriteHeader(msgType, |body|, txid);
    msg := header + body;
  }

  // ------------------------------------------------------------------
  // Parsing
  // ------------------------------------------------------------------

  /** What the parser reports; the transaction id as bytes instead of hexadecimal text. */
  datatype Info = Info(
    rawType: uint16, stunClass: nat, methodBits: nat, txid: seq<byte>, length: nat, attributes: seq<Attribute>,
    error: Error, stableRoutingConnID: nat)

  /** The two class bits of a message type: 0 request, 1 indication, 2 success, 3 error. */
  function ClassOf(rawType: uint16): nat {
    rawType / 256 % 2 * 2 + rawType / 16 % 2
  }

  /** The twelve method bits, closed up. */
  function MethodOf(rawType: uint16): nat {
    rawType / 0x200 % 32 * 128 + rawType / 32 % 8 * 16 + rawType % 16
  }

  /** The attributes from `offset` on, as the loop reads them. */
  function AttributesFrom(data: seq<byte>, offset: nat, end: nat): (attrs: seq<Attribute>)
    decreases |data| - offset
  {
    if offset + 4 > end || offset + 4 > |data| then []
    else
      var length := U16(data[offset + 2..]);
      if offset + 4 + length > |data| then []
      else
        [Attribute(U16(data[offset..]), data[offset + 4..offset + 4 + length])]
        + AttributesFrom(data, offset + 4 + length + Padding(length), end)
  }

  datatype Error = Error(code: nat, reason: seq<byte>)

  /** An error-code attribute sets the code, and the reason when it has one. */
  function ErrorStep(e: Error, a: Attribute): Error {
    if a.attrType != ERROR_CODE || |a.data| < 4 then e
    else Error((a.data[2] as int) % 8 * 100 + a.data[3], if |a.data| > 4 then a.data[4..] else e.reason)
  }

  function ErrorAfter(attrs: seq<Attribute>): Error {
    if attrs == [] then Error(0, []) else ErrorStep(ErrorAfter(attrs[..|attrs| - 1]), attrs[|attrs| - 1])
  }

  function U64(s: seq<byte>): nat
    requires |s| == 8
  {
    U32(s) * TWO32 + U32(s[4..])
  }

  function StableStep(id: nat, stunClass: nat, a: Attribute): nat {
    if a.attrType == STABLE_ROUTING_CONN_ID && stunClass == 2 && |a.data| == 8 then U64(a.data) else id
  }

  function StableAfter(attrs: seq<Attribute>, stunClass: nat): nat {
    if attrs == [] then 0 else StableStep(StableAfter(attrs[..|attrs| - 1], stunClass), stunClass, attrs[|attrs| - 1])
  }

  lemma AfterOneMore(attrs: seq<Attribute>, stunClass: nat, a: Attribute)
    ensures ErrorAfter(attrs + [a]) == ErrorStep(ErrorAfter(attrs), a)
    ensures StableAfter(attrs + [a], stunClass) == StableStep(StableAfter(attrs, stunClass), stunClass, a)
  {
    assert (attrs + [a])[..|attrs|] == attrs;
  }

  /** One turn of the parser's loop. */
  lemma NextAttribute(data: seq<byte>, offset: nat, end: nat, before: seq<Attribute>)
    requires offset + 4 <= end && offset + 4 <= |data|
    ensures var length := U16(data[offset + 2..]);
            (if offset + 4 + length > |data| then before + AttributesFrom(data, offset, end) == before
             else
               before + AttributesFrom(data, offset, end)
               == before + [Attribute(U16(data[offset..]), data[offset + 4..offset + 4 + length])]
                  + AttributesFrom(data, offset + 4 + length + Padding(length), end))
  {
    var length := U16(data[offset + 2..]);
    if offset + 4 + length > |data| {
      NilRight(before);
    } else {
      Assoc(before, [Attribute(U16(data[offset..]), data[offset + 4..offset + 4 + length])],
            AttributesFrom(data, offset + 4 + length + Padding(length), end));
    }
  }

  function Parsed(data: seq<byte>): (info: Option<Info>) {
    if |data| < HEADER_LEN then None
    else
      var rawType := U16(data);
      if U32(data[4..]) != MAGIC_COOKIE then
        if rawType == 0x0801 || rawType == 0x0802 then Some(Info(rawType, 1, rawType, data[8..20], |data|, [], Error(0, []), 0)) else None
      else
        var attrs := AttributesFrom(data, HEADER_LEN, HEADER_LEN + U16(data[2..]));
        Some(Info(rawType, ClassOf(rawType), MethodOf(rawType), data[8..20], |data|, attrs, ErrorAfter(attrs),
                  StableAfter(attrs, ClassOf(rawType))))
  }

  /** What the parser's loop makes of an attribute it has read. */
  method NoteAttribute(e: Error, s: nat, stunClass: nat, a: Attribute) returns (error: Error, stable: nat)
    ensures error == ErrorStep(e, a) && stable == StableStep(s, stunClass, a)
  {
    error, stable := e, s;
    if a.attrType == ERROR_CODE && |a.data| >= 4 {
      var errorClass, errorNumber := (a.data[2] as int) % 8, a.data[3];
      error := error.(code := errorClass * 100 + errorNumber);
      if |a.data| > 4 {
        error := error.(reason := a.data[4..]);
      }
    }
    if a.attrType == STABLE_ROUTING_CONN_ID && stunClass == 2 && |a.data| == 8 {
      stable := U64(a.data);
    }
  }

  /** The parser's loop at `offset`: what it has read, and what it has made of it. */
  ghost predicate Reading(data: seq<byte>, end: nat, stunClass: nat, offset: nat,
                          attributes: seq<Attribute>, error: Error, stable: nat) {
    && AttributesFrom(data, HEADER_LEN, end) == attributes + AttributesFrom(data, offset, end)
    && error == ErrorAfter(attributes) && stable == StableAfter(attributes, stunClass)
  }

  /** The body of the parser's loop, for an attribute that fits. */
  method ReadAttribute(data: seq<byte>, end: nat, stunClass: nat, offset: nat, attributes: seq<Attribute>, error: Error, stable: nat)
    returns (next: nat, attributes': seq<Attribute>, error': Error, stable': nat)
    requires offset + 4 <= end && offset + 4 <= |data| && offset + 4 + U16(data[offset + 2..]) <= |data|
    requires Reading(data, end, stunClass, offset, attributes, error, stable)
    ensures Reading(data, end, stunClass, next, attributes', error', stable') && offset < next
  {
    NextAttribute(data, offset, end, attributes);
    var attrType, attrLength := U16(data[offset..]), U16(data[offset + 2..]);
    var attrEnd := offset + 4 + attrLength;
    var a := Attribute(attrType, data[offset + 4..attrEnd]);
    AfterOneMore(attributes, stunClass, a);
    error', stable' := NoteAttribute(error, stable, stunClass, a);
    attributes' := attributes + [a];
    next := attrEnd + Padding(attrLength);
  }

  /** The loop of ParseStunResponse. */
  method ReadAttributes(data: seq<byte>, end: nat, stunClass: nat)
    returns (attributes: seq<Attribute>, error: Error, stable: nat)
    ensures attributes == AttributesFrom(data, HEADER_LEN, end)
    ensures error == ErrorAfter(attributes) && stable == StableAfter(attributes, stunClass)
  {
    attributes, error, stable := [], Error(0, []), 0;
    var offset := HEADER_LEN;
    NilLeft(AttributesFrom(data, HEADER_LEN, end));
    while offset + 4 <= end && offset + 4 <= |data| && offset + 4 + U16(data[offset + 2..]) <= |data|
      invariant Reading(data, end, stunClass, offset, attributes, error, stable)
      decreases |data| - offset
    {
      offset, attributes, error, stable := ReadAttribute(data, end, stunClass, offset, attributes, error, stable);
    }
    NilRight(attributes);
  }

  method ParseStunResponse(data: seq<byte>) returns (info: Option<Info>)
    ensures info == Parsed(data)
  {
    if |data| < HEADER_LEN {
      return None;
    }
    var rawType := U16(data);
    if U32(data[4..]) != MAGIC_COOKIE {
      if rawType == 0x0801 || rawType == 0x0802 {
        return Some(Info(rawType, 1, rawType, data[8..20], |data|, [], Error(0, []), 0));
      }
      return None;
    }
    var stunClass, end := ClassOf(rawType), HEADER_LEN + U16(data[2..]);
    var attributes, error, stable := ReadAttributes(data, end, stunClass);
    info := Some(Info(rawType, stunClass, MethodOf(rawType), data[8..20], |data|, attributes, error, stable));
  }
}
