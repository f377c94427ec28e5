/** What the STUN parser makes of the messages the builders build, and what their
    seals cover (sections 5, 14.5 and 14.7 of RFC 8489). */
module StunRoundTrip {
  import opened Bytes
  import opened Division
  import opened Wrappers
  import opened Stun

  // ------------------------------------------------------------------
  // The requests that are built
  // ------------------------------------------------------------------

  function BindingAttributes(username: seq<byte>, subscriptions: seq<byte>, tieBreaker: Option<seq<byte>>): seq<Attribute> {
    (if username != [] then [Attribute(USERNAME, username)] else [])
    + [Attribute(PRIORITY, BE32(DEFAULT_ICE_PRIORITY))]
    + (if tieBreaker.Some? then [Attribute(ICE_CONTROLLING, tieBreaker.value)] else [])
    + (if subscriptions != [] then [Attribute(SENDER_SUBSCRIPTIONS, subscriptions)] else [])
  }

  /** An address with port and octets masked by the magic cookie. */
  function XorRelayedAddress(ip: seq<byte>, port: uint16): (data: seq<byte>)
    requires |ip| == 4
    ensures |data| == 8
  {
    [0x00, 0x01] + Masked(BE16(port), BE16(MAGIC_COOKIE / TWO16)) + Masked(ip, BE32(MAGIC_COOKIE))
  }

  function Masked(a: seq<byte>, mask: seq<byte>): (s: seq<byte>)
    requires |mask| == |a|
    ensures |s| == |a|
  {
    seq(|a|, k requires 0 <= k < |a| => Xor(mask[k], a[k]))
  }

  /** Masking twice gives back the address. */
  lemma UnmaskedAddress(ip: seq<byte>, port: uint16)
    requires |ip| == 4
    ensures var data := XorRelayedAddress(ip, port);
            Masked(data[2..4], BE16(MAGIC_COOKIE / TWO16)) == BE16(port) && Masked(data[4..8], BE32(MAGIC_COOKIE)) == ip
  {
    MaskedTwice(BE16(port), BE16(MAGIC_COOKIE / TWO16));
    MaskedTwice(ip, BE32(MAGIC_COOKIE));
    var data := XorRelayedAddress(ip, port);
    assert data[2..4] == Masked(BE16(port), BE16(MAGIC_COOKIE / TWO16));
    assert data[4..8] == Masked(ip, BE32(MAGIC_COOKIE));
  }

  lemma MaskedTwice(a: seq<byte>, mask: seq<byte>)
    requires |mask| == |a|
    ensures Masked(Masked(a, mask), mask) == a
  {
    forall k | 0 <= k < |a| ensures Masked(Masked(a, mask), mask)[k] == a[k] {
      XorCancel(a[k], mask[k]);
    }
  }

  function AllocateAttributes(subscriptions: seq<byte>, ssrcList: seq<byte>, relay: Option<(seq<byte>, uint16)>): seq<Attribute>
    requires relay.Some? ==> |relay.value.0| == 4
  {
    [Attribute(SENDER_SUBSCRIPTIONS, subscriptions), Attribute(SSRC_LIST, ssrcList)]
    + (if relay.Some? && relay.value.1 != 0
       then [Attribute(XOR_RELAYED_ADDRESS, XorRelayedAddress(relay.value.0, relay.value.1))] else [])
  }

  method AppendAttribute(parts: seq<byte>, attrType: uint16, data: seq<byte>, ghost attrs: seq<Attribute>)
    returns (out: seq<byte>)
    requires parts == EncodedAll(attrs)
    ensures out == EncodedAll(attrs + [Attribute(attrType, data)])
  {
    var a := EncodeAttribute(attrType, data);
    EncodedSnoc(attrs, Attribute(attrType, data));
    out := parts + a;
  }

  method BuildBindingRequestWithSubs(p: Prims, txid: seq<byte>, username: seq<byte>, hmacKey: seq<byte>,
                                     subscriptions: seq<byte>, tieBreaker: Option<seq<byte>>, includeFingerprint: bool)
    returns (msg: seq<byte>)
    requires |txid| == TXID_LEN
    ensures msg == Message(BINDING_REQUEST,
                           EncodedAll(Sealed(p, BINDING_REQUEST, BindingAttributes(username, subscriptions, tieBreaker),
                                             txid, if hmacKey == [] then None else Some(hmacKey), includeFingerprint)), txid)
  {
    var parts: seq<byte> := [];
    ghost var attrs: seq<Attribute> := [];
    if |username| > 0 {
      parts := AppendAttribute(parts, USERNAME, username, attrs);
      attrs := attrs + [Attribute(USERNAME, username)];
    }
    parts := AppendAttribute(parts, PRIORITY, BE32(DEFAULT_ICE_PRIORITY), attrs);
    attrs := attrs + [Attribute(PRIORITY, BE32(DEFAULT_ICE_PRIORITY))];
    if tieBreaker.Some? {
      parts := AppendAttribute(parts, ICE_CONTROLLING, tieBreaker.value, attrs);
      attrs := attrs + [Attribute(ICE_CONTROLLING, tieBreaker.value)];
    }
    if |subscriptions| > 0 {
      parts := AppendAttribute(parts, SENDER_SUBSCRIPTIONS, subscriptions, attrs);
      attrs := attrs + [Attribute(SENDER_SUBSCRIPTIONS, subscriptions)];
    }
    assert attrs == BindingAttributes(username, subscriptions, tieBreaker);
    var key := if |hmacKey| > 0 then Some(hmacKey) else None;
    SealedEncoded(p, BINDING_REQUEST, attrs, txid, key, includeFingerprint);
    msg := BuildStunMessage(p, BINDING_REQUEST, parts, txid, key, includeFingerprint);
  }

  method BuildAllocateForRelay(p: Prims, txid: seq<byte>, subscriptions: seq<byte>, ssrcList: seq<byte>,
                               hmacKey: Option<seq<byte>>, relay: Option<(seq<byte>, uint16)>) returns (msg: seq<byte>)
    requires |txid| == TXID_LEN && (relay.Some? ==> |relay.value.0| == 4)
    ensures msg == Message(ALLOCATE_REQUEST,
                           EncodedAll(Sealed(p, ALLOCATE_REQUEST, AllocateAttributes(subscriptions, ssrcList, relay),
                                             txid, hmacKey, false)), txid)
  {
    ghost var attrs: seq<Attribute> := [];
    var parts := AppendAttribute([], SENDER_SUBSCRIPTIONS, subscriptions, attrs);
    attrs := attrs + [Attribute(SENDER_SUBSCRIPTIONS, subscriptions)];
    parts := AppendAttribute(parts, SSRC_LIST, ssrcList, attrs);
    attrs := attrs + [Attribute(SSRC_LIST, ssrcList)];
    if relay.Some? && relay.value.1 != 0 {
      var address := XorRelayedAddress(relay.value.0, relay.value.1);
      parts := AppendAttribute(parts, XOR_RELAYED_ADDRESS, address, attrs);
      attrs := attrs + [Attribute(XOR_RELAYED_ADDRESS, address)];
    }
    assert attrs == AllocateAttributes(subscriptions, ssrcList, relay);
    SealedEncoded(p, ALLOCATE_REQUEST, attrs, txid, hmacKey, false);
    msg := BuildStunMessage(p, ALLOCATE_REQUEST, parts, txid, hmacKey, false);
  }

  // ------------------------------------------------------------------
  // Reading the attributes back
  // ------------------------------------------------------------------

  /** Each attribute's length fits its 16-bit field. */
  predicate Encodable(attrs: seq<Attribute>) {
    forall i :: 0 <= i < |attrs| ==> |attrs[i].data| < TWO16
  }

  /** No attribute is so long that it alone fills the message. */
  predicate Modest(attrs: seq<Attribute>) {
    forall i :: 0 <= i < |attrs| ==> |attrs[i].data| <= TWO16 - 4
  }

  /** Every attribute's header lies before `end`. */
  predicate StartsBefore(offset: nat, end: nat, attrs: seq<Attribute>)
    decreases |attrs|
  {
    attrs == []
    || (offset + 4 <= end && StartsBefore(offset + |EncodedAttribute(attrs[0])|, end, attrs[1..]))
  }

  lemma FirstFields(a: Attribute, rest: seq<byte>)
    requires |a.data| < TWO16
    ensures var s, n := EncodedAttribute(a) + rest, |a.data|;
            && |s| == 4 + n + Padding(n) + |rest|
            && U16(s) == a.attrType && U16(s[2..]) == n && s[4..4 + n] == a.data && s[4 + n + Padding(n)..] == rest
  {
    var s, n := EncodedAttribute(a) + rest, |a.data|;
    var tail := a.data + Zeros(Padding(n)) + rest;
    assert s == BE16(a.attrType) + (BE16(n) + tail);
    U16OfBE16(a.attrType, BE16(n) + tail);
    assert s[2..] == BE16(n) + tail;
    U16OfBE16(n, tail);
  }

  lemma Slices(data: seq<byte>, offset: nat, i: nat, j: nat)
    requires offset + i <= offset + j <= |data|
    ensures data[offset..][i..j] == data[offset + i..offset + j]
    ensures data[offset..][i..] == data[offset + i..]
  {
  }

  lemma ReadOne(data: seq<byte>, offset: nat, end: nat, a: Attribute, next: nat, more: seq<Attribute>)
    requires offset + 4 <= end && offset + 4 + |a.data| <= |data|
    requires U16(data[offset..]) == a.attrType && U16(data[offset + 2..]) == |a.data|
    requires data[offset + 4..offset + 4 + |a.data|] == a.data
    requires next == offset + 4 + |a.data| + Padding(|a.data|) && more == AttributesFrom(data, next, end)
    ensures AttributesFrom(data, offset, end) == [a] + more
  {
  }

  lemma ReadFirst(data: seq<byte>, offset: nat, end: nat, a: Attribute, rest: seq<byte>, next: nat, more: seq<Attribute>)
    requires offset <= |data| && data[offset..] == EncodedAttribute(a) + rest && |a.data| < TWO16 && offset + 4 <= end
    requires next == offset + |EncodedAttribute(a)| && more == AttributesFrom(data, next, end)
    ensures next <= |data| && data[next..] == rest
    ensures AttributesFrom(data, offset, end) == [a] + more
  {
    var n := |a.data|;
    FirstFields(a, rest);
    Slices(data, offset, 0, 4);
    Slices(data, offset, 2, 4);
    Slices(data, offset, 4, 4 + n);
    Slices(data, offset, 4 + n + Padding(n), 4 + n + Padding(n));
    ReadOne(data, offset, end, a, next, more);
  }

  lemma FirstIff(got: seq<Attribute>, a: Attribute, s: seq<Attribute>, attrs: seq<Attribute>)
    requires got == [a] + s && attrs != [] && attrs[0] == a
    ensures got == attrs <==> s == attrs[1..]
  {
    assert attrs == [a] + attrs[1..];
    SameTail(a, s, attrs[1..]);
  }

  lemma NothingRead(data: seq<byte>, offset: nat, end: nat)
    requires offset + 4 > end || offset + 4 > |data|
    ensures AttributesFrom(data, offset, end) == []
  {
  }

  /** The loop reads back what was encoded, if and only if every attribute starts before
      the end that the header gives. */
  lemma {:induction false} ReadBackIff(data: seq<byte>, offset: nat, end: nat, attrs: seq<Attribute>)
    requires offset <= |data| && data[offset..] == EncodedAll(attrs) && Encodable(attrs)
    ensures AttributesFrom(data, offset, end) == attrs <==> StartsBefore(offset, end, attrs)
    decreases |attrs|
  {
    if attrs == [] || offset + 4 > end {
      NothingRead(data, offset, end);
    } else {
      var next := offset + |EncodedAttribute(attrs[0])|;
      var got, more := AttributesFrom(data, offset, end), AttributesFrom(data, next, end);
      ReadFirst(data, offset, end, attrs[0], EncodedAll(attrs[1..]), next, more);
      ReadBackIff(data, next, end, attrs[1..]);
      FirstIff(got, attrs[0], more, attrs);
    }
  }

  lemma SameTail(a: Attribute, s: seq<Attribute>, t: seq<Attribute>)
    ensures [a] + s == [a] + t <==> s == t
  {
    assert ([a] + s)[1..] == s && ([a] + t)[1..] == t;
  }

  lemma {:induction false} AllStart(offset: nat, attrs: seq<Attribute>)
    ensures StartsBefore(offset, offset + |EncodedAll(attrs)|, attrs)
    decreases |attrs|
  {
    if attrs != [] {
      AllStart(offset + |EncodedAttribute(attrs[0])|, attrs[1..]);
    }
  }

  /** A length that lost at least 2^16 cuts off at least the last attribute. */
  lemma {:induction false} LastCutOff(offset: nat, end: nat, attrs: seq<Attribute>)
    requires attrs != [] && Modest(attrs)
    requires end + TWO16 <= offset + |EncodedAll(attrs)|
    ensures !StartsBefore(offset, end, attrs)
    decreases |attrs|
  {
    if |attrs| > 1 {
      LastCutOff(offset + |EncodedAttribute(attrs[0])|, end, attrs[1..]);
    } else {
      assert EncodedAll(attrs[1..]) == [];
    }
  }

  lemma HeaderFields(msgType: uint16, length: nat, txid: seq<byte>, body: seq<byte>)
    requires |txid| == TXID_LEN
    ensures var msg := Header(msgType, length, txid) + body;
            && |msg| == HEADER_LEN + |body|
            && U16(msg) == msgType && U16(msg[2..]) == length % TWO16 && U32(msg[4..]) == MAGIC_COOKIE
            && msg[8..20] == txid && msg[20..] == body
  {
    var msg := Header(msgType, length, txid) + body;
    var fromCookie := BE32(MAGIC_COOKIE) + (txid + body);
    assert msg == BE16(msgType) + (BE16(length) + fromCookie);
    U16OfBE16(msgType, BE16(length) + fromCookie);
    assert msg[2..] == BE16(length) + fromCookie;
    U16OfBE16(length, fromCookie);
    assert msg[4..] == fromCookie;
    U32OfBE32(MAGIC_COOKIE, txid + body);
  }

  lemma ParsedFields(msgType: uint16, attrs: seq<Attribute>, txid: seq<byte>)
    requires |txid| == TXID_LEN
    ensures var body := EncodedAll(attrs);
            var msg := Message(msgType, body, txid);
            && msg[20..] == body && |msg| == HEADER_LEN + |body|
            && Parsed(msg).Some? && Parsed(msg).value.rawType == msgType && Parsed(msg).value.txid == txid
            && Parsed(msg).value.attributes == AttributesFrom(msg, HEADER_LEN, HEADER_LEN + |body| % TWO16)
  {
    HeaderFields(msgType, |EncodedAll(attrs)|, txid, EncodedAll(attrs));
  }

  lemma LosesTurn(n: nat)
    requires n >= TWO16
    ensures n % TWO16 <= n - TWO16
  {
    assert n == TWO16 * (n / TWO16) + n % TWO16;
  }

  lemma KeepsLength(n: nat)
    requires n < TWO16
    ensures n % TWO16 == n
  {
  }

  lemma StartsIff(attrs: seq<Attribute>)
    requires Modest(attrs)
    ensures var n := |EncodedAll(attrs)|;
            StartsBefore(HEADER_LEN, HEADER_LEN + n % TWO16, attrs) <==> n < TWO16
  {
    var n := |EncodedAll(attrs)|;
    if n < TWO16 {
      KeepsLength(n);
      AllStart(HEADER_LEN, attrs);
    } else {
      LosesTurn(n);
      LastCutOff(HEADER_LEN, HEADER_LEN + n % TWO16, attrs);
    }
  }

  /** Parsing what was built: the type and the transaction id always come back, and the
      attributes exactly when their encoding fits the 16-bit length of the header. */
  lemma ParseBuiltIff(msgType: uint16, attrs: seq<Attribute>, txid: seq<byte>)
    requires |txid| == TXID_LEN && Modest(attrs)
    ensures var info := Parsed(Message(msgType, EncodedAll(attrs), txid));
            && info.Some? && info.value.rawType == msgType && info.value.txid == txid
            && (info.value.attributes == attrs <==> |EncodedAll(attrs)| < TWO16)
  {
    ParsedFields(msgType, attrs, txid);
    StartsIff(attrs);
    ReadBackIff(Message(msgType, EncodedAll(attrs), txid), HEADER_LEN, HEADER_LEN + |EncodedAll(attrs)| % TWO16, attrs);
  }

  // ------------------------------------------------------------------
  // Types and errors
  // ------------------------------------------------------------------

  /** Section 5 of RFC 8489: the two class bits lie between the method's. */
  function TypeOf(methodBits: nat, stunClass: nat): nat {
    methodBits / 128 * 512 + stunClass / 2 * 256 + methodBits / 16 % 8 * 32 + stunClass % 2 * 16 + methodBits % 16
  }

  lemma TypeParts(high: nat, c1: nat, mid: nat, c0: nat, low: nat)
    requires high < 32 && c1 < 2 && mid < 8 && c0 < 2 && low < 16
    ensures var t := high * 512 + c1 * 256 + mid * 32 + c0 * 16 + low;
            && t < 0x4000 && t / 0x200 % 32 == high && t / 256 % 2 == c1
            && t / 32 % 8 == mid && t / 16 % 2 == c0 && t % 16 == low
  {
    var t := high * 512 + c1 * 256 + mid * 32 + c0 * 16 + low;
    Quotient(t, 16, high * 32 + c1 * 16 + mid * 2 + c0, low);
    Quotient(t, 32, high * 16 + c1 * 8 + mid, c0 * 16 + low);
    Quotient(t, 256, high * 2 + c1, mid * 32 + c0 * 16 + low);
    Quotient(t, 512, high, c1 * 256 + mid * 32 + c0 * 16 + low);
    Quotient(high * 32 + c1 * 16 + mid * 2 + c0, 2, high * 16 + c1 * 8 + mid, c0);
    Quotient(high * 16 + c1 * 8 + mid, 8, high * 2 + c1, mid);
    Quotient(high * 2 + c1, 2, high, c1);
    Quotient(high, 32, 0, high);
  }

  lemma MethodParts(methodBits: nat)
    requires methodBits < 0x1000
    ensures methodBits == methodBits / 128 * 128 + methodBits / 16 % 8 * 16 + methodBits % 16 && methodBits / 128 < 32
  {
  }

  /** The parser's masks and shifts undo it. */
  lemma TypeReads(methodBits: nat, stunClass: nat)
    requires methodBits < 0x1000 && stunClass < 4
    ensures TypeOf(methodBits, stunClass) < 0x4000
    ensures MethodOf(TypeOf(methodBits, stunClass)) == methodBits && ClassOf(TypeOf(methodBits, stunClass)) == stunClass
  {
    MethodParts(methodBits);
    TypeParts(methodBits / 128, stunClass / 2, methodBits / 16 % 8, stunClass % 2, methodBits % 16);
  }

  /** Section 14.8 of RFC 8489: hundreds and the rest in two bytes, then the reason. */
  function ErrorAttribute(code: nat, reason: seq<byte>): Attribute
    requires code < 800
  {
    Attribute(ERROR_CODE, [0, 0, code / 100, code % 100] + reason)
  }

  /** The last error of a message is reported, with its reason when it has one. */
  lemma ErrorReads(attrs: seq<Attribute>, code: nat, reason: seq<byte>)
    requires code < 800
    ensures ErrorAfter(attrs + [ErrorAttribute(code, reason)])
         == Error(code, if reason == [] then ErrorAfter(attrs).reason else reason)
  {
    var a := ErrorAttribute(code, reason);
    AfterOneMore(attrs, 0, a);
    assert a.data[2] == code / 100 && a.data[3] == code % 100 && a.data[4..] == reason;
  }

  // ------------------------------------------------------------------
  // What the seals cover
  // ------------------------------------------------------------------

  /** A message with another value in its length field. */
  function WithLength(msg: seq<byte>, n: nat): seq<byte>
    requires |msg| >= 4
  {
    msg[..2] + BE16(n) + msg[4..]
  }

  lemma HeaderWithLength(msgType: uint16, m: nat, n: nat, txid: seq<byte>, body: seq<byte>)
    ensures WithLength(Header(msgType, m, txid) + body, n) == Header(msgType, n, txid) + body
  {
    var fromCookie := BE32(MAGIC_COOKIE) + (txid + body);
    var msg := Header(msgType, m, txid) + body;
    assert msg == BE16(msgType) + (BE16(m) + fromCookie);
    assert msg[..2] == BE16(msgType) && msg[4..] == fromCookie;
    assert Header(msgType, n, txid) + body == BE16(msgType) + (BE16(n) + fromCookie);
  }

  function Built(p: Prims, msgType: uint16, attrs: seq<Attribute>, txid: seq<byte>, key: Option<seq<byte>>, fp: bool): seq<byte> {
    Message(msgType, EncodedAll(Sealed(p, msgType, attrs, txid, key, fp)), txid)
  }

  lemma SealsFollow(p: Prims, msgType: uint16, attrs: seq<Attribute>, txid: seq<byte>, key: seq<byte>, fp: bool)
    returns (rest: seq<byte>)
    ensures EncodedAll(Sealed(p, msgType, attrs, txid, Some(key), fp)) == EncodedAll(attrs) + rest
  {
    var body := EncodedAll(attrs);
    var mi := IntegrityOf(p, key, msgType, txid, body);
    var a1 := attrs + [mi];
    rest := EncodedAttribute(mi);
    EncodedSnoc(attrs, mi);
    if fp {
      var f := FingerprintOf(p, msgType, txid, EncodedAll(a1));
      EncodedSnoc(a1, f);
      Assoc(body, rest, EncodedAttribute(f));
      rest := rest + EncodedAttribute(f);
    }
  }

  lemma Prefix(h: seq<byte>, body: seq<byte>, rest: seq<byte>)
    ensures (h + (body + rest))[..|h| + |body|] == h + body
  {
  }

  /** The seal that follows the given attributes is the code of a header that counts up to
      its own end, and of the attributes. */
  lemma IntegritySeals(p: Prims, msgType: uint16, attrs: seq<Attribute>, txid: seq<byte>, key: seq<byte>, fp: bool)
    ensures var all, body := Sealed(p, msgType, attrs, txid, Some(key), fp), EncodedAll(attrs);
            && |all| > |attrs| && all[..|attrs|] == attrs && all[|attrs|].attrType == MESSAGE_INTEGRITY
            && |EncodedAttribute(all[|attrs|])| == 24
            && all[|attrs|].data == Hmac(p, key, Header(msgType, |body| + 24, txid) + body)
  {
  }

  /** The front of a message, with a length field that counts 24 bytes past it. */
  lemma FrontOfMessage(msgType: uint16, body: seq<byte>, rest: seq<byte>, txid: seq<byte>)
    requires |txid| == TXID_LEN
    ensures var msg := Message(msgType, body + rest, txid);
            WithLength(msg[..HEADER_LEN + |body|], |body| + 24) == Header(msgType, |body| + 24, txid) + body
  {
    var m := |body + rest|;
    Prefix(Header(msgType, m, txid), body, rest);
    HeaderWithLength(msgType, m, |body| + 24, txid, body);
  }

  /** The part of a message that its integrity covers. */
  lemma SealedFront(p: Prims, msgType: uint16, attrs: seq<Attribute>, txid: seq<byte>, key: seq<byte>, fp: bool)
    requires |txid| == TXID_LEN
    ensures var msg, body := Built(p, msgType, attrs, txid, Some(key), fp), EncodedAll(attrs);
            && |msg| >= HEADER_LEN + |body|
            && WithLength(msg[..HEADER_LEN + |body|], |body| + 24) == Header(msgType, |body| + 24, txid) + body
  {
    var rest := SealsFollow(p, msgType, attrs, txid, key, fp);
    FrontOfMessage(msgType, EncodedAll(attrs), rest, txid);
  }

  /** MESSAGE-INTEGRITY, which follows the given attributes, is the code of the message up
      to it, with a length field that counts everything up to its own end. */
  lemma IntegrityCovers(p: Prims, msgType: uint16, attrs: seq<Attribute>, txid: seq<byte>, key: seq<byte>, fp: bool)
    requires |txid| == TXID_LEN
    ensures var all, n := Sealed(p, msgType, attrs, txid, Some(key), fp), |EncodedAll(attrs)|;
            var msg := Built(p, msgType, attrs, txid, Some(key), fp);
            && |all| > |attrs| && all[..|attrs|] == attrs && all[|attrs|].attrType == MESSAGE_INTEGRITY
            && |EncodedAttribute(all[|attrs|])| == 24
            && |msg| >= HEADER_LEN + n && all[|attrs|].data == Hmac(p, key, WithLength(msg[..HEADER_LEN + n], n + 24))
  {
    IntegritySeals(p, msgType, attrs, txid, key, fp);
    SealedFront(p, msgType, attrs, txid, key, fp);
  }

  /** FINGERPRINT, which comes last, is the checksum of all of the message before it, whose
      length field already counts it. */
  lemma FingerprintCovers(p: Prims, msgType: uint16, attrs: seq<Attribute>, txid: seq<byte>, key: Option<seq<byte>>)
    requires |txid| == TXID_LEN
    ensures var all, msg := Sealed(p, msgType, attrs, txid, key, true), Built(p, msgType, attrs, txid, key, true);
            && |all| > |attrs| && all[|all| - 1].attrType == FINGERPRINT && |EncodedAttribute(all[|all| - 1])| == 8
            && |msg| >= HEADER_LEN + 8
            && all[|all| - 1].data == BE32(Xor32(p.crc32(msg[..|msg| - 8]), FINGERPRINT_XOR))
  {
    var all := Sealed(p, msgType, attrs, txid, key, true);
    var before := all[..|all| - 1];
    var fp := FingerprintOf(p, msgType, txid, EncodedAll(before));
    assert all == before + [fp];
    EncodedSnoc(before, fp);
    var body, h := EncodedAll(before), Header(msgType, |EncodedAll(all)|, txid);
    Assoc(h, body, EncodedAttribute(fp));
    var msg := Built(p, msgType, attrs, txid, key, true);
    assert msg[..|msg| - 8] == h + body;
  }

  /** The given attributes, then exactly the seals that were asked for. */
  predicate SealsOf(all: seq<Attribute>, attrs: seq<Attribute>, integrity: bool, fp: bool) {
    && |all| == |attrs| + (if integrity then 1 else 0) + (if fp then 1 else 0)
    && all[..|attrs|] == attrs
    && (integrity ==> all[|attrs|].attrType == MESSAGE_INTEGRITY)
    && (fp ==> all[|all| - 1].attrType == FINGERPRINT)
  }

  lemma SealedShape(p: Prims, msgType: uint16, attrs: seq<Attribute>, txid: seq<byte>, key: Option<seq<byte>>, fp: bool)
    requires Modest(attrs)
    ensures var all := Sealed(p, msgType, attrs, txid, key, fp);
            Modest(all) && SealsOf(all, attrs, key.Some?, fp)
  {
  }

  /** Parsing a sealed message gives back the given attributes followed by exactly the
      seals that were asked for, if and only if all of them fit the 16-bit length. */
  lemma ParseSealed(p: Prims, msgType: uint16, attrs: seq<Attribute>, txid: seq<byte>, key: Option<seq<byte>>, fp: bool)
    requires |txid| == TXID_LEN && Modest(attrs)
    ensures var info, all := Parsed(Built(p, msgType, attrs, txid, key, fp)), Sealed(p, msgType, attrs, txid, key, fp);
            && info.Some? && info.value.rawType == msgType && info.value.txid == txid
            && SealsOf(all, attrs, key.Some?, fp)
            && (info.value.attributes == all <==> |EncodedAll(attrs)| + SealsLength(key.Some?, fp) < TWO16)
  {
    var all := Sealed(p, msgType, attrs, txid, key, fp);
    SealedLength(p, msgType, attrs, txid, key, fp);
    SealedShape(p, msgType, attrs, txid, key, fp);
    ParseBuiltIff(msgType, all, txid);
  }

  /** The bytes the seals take. */
  function SealsLength(integrity: bool, fp: bool): nat {
    (if integrity then 24 else 0) + (if fp then 8 else 0)
  }

  lemma SealedLength(p: Prims, msgType: uint16, attrs: seq<Attribute>, txid: seq<byte>, key: Option<seq<byte>>, fp: bool)
    ensures |EncodedAll(Sealed(p, msgType, attrs, txid, key, fp))| == |EncodedAll(attrs)| + SealsLength(key.Some?, fp)
  {
    var a1 := attrs;
    if key.Some? {
      var mi := IntegrityOf(p, key.value, msgType, txid, EncodedAll(attrs));
      EncodedSnoc(attrs, mi);
      a1 := attrs + [mi];
    }
    if fp {
      EncodedSnoc(a1, FingerprintOf(p, msgType, txid, EncodedAll(a1)));
    }
  }
}
