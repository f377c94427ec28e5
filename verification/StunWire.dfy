/** STUN messages by the positions of their bytes (sections 5 and 14 of RFC 8489), and the
    two requests as a relay reads them (internal/voip/transport/stun.go). */
module StunWire {
  import opened Bytes
  import opened Wrappers
  import opened Stun
  import opened StunRoundTrip
  import opened WireLayout

  /** A message: its type, the length of what follows, the magic cookie, the transaction
      id, and the attributes. */
  lemma MessageLayout(msgType: uint16, body: seq<byte>, txid: seq<byte>)
    requires |txid| == 12
    ensures var m := Message(msgType, body, txid);
            && |m| == 20 + |body| && Word(m[0], m[1]) == msgType && Word(m[2], m[3]) == |body| % 0x1_0000
            && m[4] == 0x21 && m[5] == 0x12 && m[6] == 0xa4 && m[7] == 0x42 && m[8..20] == txid && m[20..] == body
  {
    var h := Header(msgType, |body|, txid);
    assert h == BE16(msgType) + (BE16(|body|) + (BE32(MAGIC_COOKIE) + txid));
    assert BE32(MAGIC_COOKIE) == [0x21, 0x12, 0xa4, 0x42];
    assert h[2..4] == BE16(|body|) && h[4..8] == BE32(MAGIC_COOKIE) && h[8..20] == txid;
    BE16Bytes(msgType);
    assert Message(msgType, body, txid) == h + body;
  }

  /** An attribute: its type, the length of its data, the data, and zeros up to a multiple
      of four bytes. */
  lemma AttributeLayout(a: Attribute)
    requires |a.data| < 0x1_0000
    ensures var s, n := EncodedAttribute(a), |a.data|;
            && |s| % 4 == 0 && 4 + n <= |s| < 8 + n
            && Word(s[0], s[1]) == a.attrType && Word(s[2], s[3]) == n && s[4..4 + n] == a.data
            && forall k :: 4 + n <= k < |s| ==> s[k] == 0
  {
    BE16Bytes(a.attrType);
    BE16Bytes(|a.data|);
    var s, n := EncodedAttribute(a), |a.data|;
    PaddingFits(n);
    assert s == BE16(a.attrType) + BE16(n) + (a.data + Zeros(Padding(n)));
    assert s[4..] == a.data + Zeros(Padding(n));
  }

  lemma PaddingFits(n: nat)
    ensures 0 <= Padding(n) < 4 && (4 + n + Padding(n)) % 4 == 0
  {
    PaddedAligned(n);
    SumAligned(n + Padding(n), 0);
  }

  /** The attributes follow each other. */
  lemma AttributesLayout(a: Attribute, rest: seq<Attribute>)
    ensures EncodedAll([a] + rest) == EncodedAttribute(a) + EncodedAll(rest)
  {
    assert ([a] + rest)[1..] == rest;
  }

  /** The relayed address: family 1, the port and the octets masked by the magic cookie. */
  lemma AddressLayout(ip: seq<byte>, port: uint16)
    requires |ip| == 4
    ensures XorRelayedAddress(ip, port)
         == [0, 1, Xor(0x21, port / 256), Xor(0x12, port % 256),
             Xor(0x21, ip[0]), Xor(0x12, ip[1]), Xor(0xa4, ip[2]), Xor(0x42, ip[3])]
  {
    assert BE16(MAGIC_COOKIE / TWO16) == [0x21, 0x12] && BE32(MAGIC_COOKIE) == [0x21, 0x12, 0xa4, 0x42];
    assert BE16(port) == [port / 256, port % 256];
  }

  /** The seals of a message, by their types: 0x0008 with twenty bytes, then 0x8028 with the
      four bytes of a checksum masked by 0x5354554e. */
  lemma SealTypes(p: Prims, msgType: uint16, attrs: seq<Attribute>, txid: seq<byte>, key: Option<seq<byte>>, fp: bool)
    ensures var all := Sealed(p, msgType, attrs, txid, key, fp);
            && |all| == |attrs| + (if key.Some? then 1 else 0) + (if fp then 1 else 0) && all[..|attrs|] == attrs
            && (key.Some? ==> all[|attrs|].attrType == 0x0008 && |all[|attrs|].data| == 20)
            && (fp ==> all[|all| - 1].attrType == 0x8028 && exists c: uint32 :: all[|all| - 1].data == BE32(Xor32(c, 0x5354_554e)))
  {
    var all := Sealed(p, msgType, attrs, txid, key, fp);
    if fp {
      var a1 := all[..|all| - 1];
      var c := p.crc32(Header(msgType, |EncodedAll(a1)| + 8, txid) + EncodedAll(a1));
      assert all[|all| - 1].data == BE32(Xor32(c, 0x5354_554e));
    }
  }

  /** The code of MESSAGE-INTEGRITY is that of its key, byte by byte. */
  lemma CodeBytes(p: Prims, key: seq<byte>, data: seq<byte>, j: nat)
    requires j < 20
    ensures |Hmac(p, key, data)| == 20 && Hmac(p, key, data)[j] == p.hmac(key, data, j)
  {
  }

  /** A binding request as the relay reads it: type 1, the user name, the priority 0xffffff,
      the tie breaker of a controlling agent and the subscriptions, each only if given. */
  lemma BindingReads(p: Prims, txid: seq<byte>, username: seq<byte>, subscriptions: seq<byte>, tieBreaker: Option<seq<byte>>,
                     key: Option<seq<byte>>, fp: bool)
    requires |txid| == TXID_LEN && Modest(BindingAttributes(username, subscriptions, tieBreaker))
    requires |EncodedAll(BindingAttributes(username, subscriptions, tieBreaker))| + 32 < 0x1_0000
    ensures var attrs := (if username == [] then [] else [Attribute(0x0006, username)])
                         + [Attribute(0x0024, [0, 0xff, 0xff, 0xff])]
                         + (if tieBreaker.None? then [] else [Attribute(0x802a, tieBreaker.value)])
                         + (if subscriptions == [] then [] else [Attribute(0x4000, subscriptions)]);
            var info := Parsed(Built(p, BINDING_REQUEST, BindingAttributes(username, subscriptions, tieBreaker), txid, key, fp));
            && info.Some? && info.value.rawType == 0x0001 && info.value.stunClass == 0 && info.value.methodBits == 1
            && info.value.txid == txid && SealsOf(info.value.attributes, attrs, key.Some?, fp)
  {
    assert BE32(DEFAULT_ICE_PRIORITY) == [0, 0xff, 0xff, 0xff];
    var attrs := BindingAttributes(username, subscriptions, tieBreaker);
    ParseSealed(p, BINDING_REQUEST, attrs, txid, key, fp);
    RequestClass(p, BINDING_REQUEST, attrs, txid, key, fp);
  }

  /** An allocate request: type 3, the subscriptions, the ssrc list, and the relay's address
      unless its port is 0. */
  lemma AllocateReads(p: Prims, txid: seq<byte>, subscriptions: seq<byte>, ssrcList: seq<byte>,
                      relay: Option<(seq<byte>, uint16)>, key: Option<seq<byte>>)
    requires |txid| == TXID_LEN && (relay.Some? ==> |relay.value.0| == 4)
    requires Modest(AllocateAttributes(subscriptions, ssrcList, relay))
    requires |EncodedAll(AllocateAttributes(subscriptions, ssrcList, relay))| + 32 < 0x1_0000
    ensures var attrs := [Attribute(0x4000, subscriptions), Attribute(0x4024, ssrcList)]
                         + (if relay.None? || relay.value.1 == 0 then []
                            else [Attribute(0x0016, XorRelayedAddress(relay.value.0, relay.value.1))]);
            var info := Parsed(Built(p, ALLOCATE_REQUEST, AllocateAttributes(subscriptions, ssrcList, relay), txid, key, false));
            && info.Some? && info.value.rawType == 0x0003 && info.value.stunClass == 0 && info.value.methodBits == 3
            && info.value.txid == txid && SealsOf(info.value.attributes, attrs, key.Some?, false)
  {
    var attrs := AllocateAttributes(subscriptions, ssrcList, relay);
    ParseSealed(p, ALLOCATE_REQUEST, attrs, txid, key, false);
    RequestClass(p, ALLOCATE_REQUEST, attrs, txid, key, false);
  }

  lemma RequestClass(p: Prims, msgType: uint16, attrs: seq<Attribute>, txid: seq<byte>, key: Option<seq<byte>>, fp: bool)
    requires |txid| == TXID_LEN && msgType < 16
    ensures var info := Parsed(Built(p, msgType, attrs, txid, key, fp));
            info.Some? ==> info.value.rawType == msgType ==> info.value.stunClass == 0 && info.value.methodBits == msgType
  {
    SmallType(msgType);
    var data := Built(p, msgType, attrs, txid, key, fp);
    if |data| >= HEADER_LEN && U16(data) == msgType {
      ParsedType(data);
    }
  }

  lemma SmallType(t: uint16)
    requires t < 16
    ensures ClassOf(t) == 0 && MethodOf(t) == t
  {
    assert t / 16 == 0 && t / 32 == 0 && t / 256 == 0 && t / 0x200 == 0 && t % 16 == t;
  }

  lemma ParsedType(data: seq<byte>)
    requires |data| >= HEADER_LEN && U16(data) < 16
    ensures Parsed(data).Some? ==> Parsed(data).value.stunClass == ClassOf(U16(data))
                                   && Parsed(data).value.methodBits == MethodOf(U16(data))
  {
  }

  /** What the parser takes: twenty bytes at least, with the magic cookie or as one of the
      two pings, which have no attributes. */
  lemma ParsedIff(data: seq<byte>)
    ensures Parsed(data).Some? <==>
      |data| >= 20 && (data[4..8] == [0x21, 0x12, 0xa4, 0x42] || (data[0] == 8 && 1 <= data[1] <= 2))
    ensures Parsed(data).Some? ==>
              var info := Parsed(data).value;
              && info.rawType == Word(data[0], data[1]) && info.txid == data[8..20] && info.length == |data|
              && (data[4..8] != [0x21, 0x12, 0xa4, 0x42] ==>
                    info.stunClass == 1 && info.attributes == [] && info.error == Error(0, []) && info.stableRoutingConnID == 0)
  {
    if |data| >= 20 {
      CookieBytes(data[4], data[5], data[6], data[7]);
      assert U32(data[4..]) == Long(data[4], data[5], data[6], data[7]);
      assert data[4..8] == [data[4], data[5], data[6], data[7]];
    }
  }

  lemma CookieBytes(a: byte, b: byte, c: byte, d: byte)
    ensures Long(a, b, c, d) == 0x2112_a442 <==> a == 0x21 && b == 0x12 && c == 0xa4 && d == 0x42
  {
  }

  /** The attributes from any place on: the next one, if its header lies before the end the
      message gives and all of it within the bytes there are, and those behind its padding. */
  lemma AttributesAre(data: seq<byte>, from: nat, end: nat)
    ensures from + 4 > end || from + 4 > |data| ==> AttributesFrom(data, from, end) == []
    ensures from + 4 <= end && from + 4 <= |data| ==>
              var n := Word(data[from + 2], data[from + 3]);
              AttributesFrom(data, from, end)
              == if from + 4 + n > |data| then []
                 else [Attribute(Word(data[from], data[from + 1]), data[from + 4..from + 4 + n])]
                      + AttributesFrom(data, from + 4 + (n + 3) / 4 * 4, end)
  {
    if from + 4 <= end && from + 4 <= |data| {
      var n := Word(data[from + 2], data[from + 3]);
      PaddedIs(n);
      HalfAt(data, from);
      HalfAt(data, from + 2);
      Unfolded(data, from, end, n);
    }
  }

  lemma PaddedIs(n: nat)
    ensures n + Padding(n) == (n + 3) / 4 * 4
  {
    PaddedAligned(n);
  }

  lemma HalfAt(data: seq<byte>, i: nat)
    requires i + 2 <= |data|
    ensures U16(data[i..]) == Word(data[i], data[i + 1])
  {
  }

  lemma Unfolded(data: seq<byte>, from: nat, end: nat, n: nat)
    requires from + 4 <= end && from + 4 <= |data| && U16(data[from + 2..]) == n
    ensures AttributesFrom(data, from, end)
         == if from + 4 + n > |data| then []
            else [Attribute(U16(data[from..]), data[from + 4..from + 4 + n])] + AttributesFrom(data, from + 4 + (n + Padding(n)), end)
  {
  }

  /** The routing id of a success response: the last attribute 0x4033 of eight bytes. */
  lemma RoutingIdReads(attrs: seq<Attribute>, stunClass: nat, a: Attribute)
    ensures StableAfter([], stunClass) == 0
    ensures StableAfter(attrs + [a], stunClass)
         == if stunClass == 2 && a.attrType == 0x4033 && |a.data| == 8
            then 0x1_0000_0000 * Long(a.data[0], a.data[1], a.data[2], a.data[3])
                 + Long(a.data[4], a.data[5], a.data[6], a.data[7])
            else StableAfter(attrs, stunClass)
  {
    AfterOneMore(attrs, stunClass, a);
  }

  /** The error of a message is that of its last attribute 0x0009 of four bytes or more. */
  lemma ErrorIs(attrs: seq<Attribute>, a: Attribute)
    ensures ErrorAfter([]) == Error(0, [])
    ensures ErrorAfter(attrs + [a])
         == if a.attrType == 0x0009 && |a.data| >= 4
            then Error(100 * ((a.data[2] as int) % 8) + a.data[3], if |a.data| > 4 then a.data[4..] else ErrorAfter(attrs).reason)
            else ErrorAfter(attrs)
  {
    AfterOneMore(attrs, 0, a);
  }
}
