/** Subscription payloads: the protobuf encoders and a decoder that specifies them
    (internal/voip/transport/subscriptions.go). */
module Subscriptions {
  import opened Bytes
  import opened Wrappers

  const TWO64: int := 0x1_0000_0000_0000_0000

  // ------------------------------------------------------------------
  // Variable-length integers
  // ------------------------------------------------------------------

  /** Seven bits at a time, low first, all but the last marked. */
  function Varint(v: nat): (s: seq<byte>)
    ensures |s| >= 1
  {
    if v > 127 then [v % 128 + 128] + Varint(v / 128) else [v]
  }

  method EncodeVarint(value: nat) returns (out: seq<byte>)
    ensures out == Varint(value)
  {
    out := [];
    var v := value;
    NilLeft(Varint(value));
    while v > 0x7f
      invariant Varint(value) == out + Varint(v)
    {
      Assoc(out, [v % 128 + 128], Varint(v / 128));
      out := out + [v % 128 + 128];
      v := v / 128;
    }
    out := out + [v];
  }

  datatype Read<+T> = Read(value: T, rest: seq<byte>)

  function ReadVarint(s: seq<byte>): (r: Option<Read<nat>>)
    ensures r.Some? ==> |r.value.rest| < |s|
  {
    if s == [] then None
    else if s[0] < 128 then Some(Read(s[0], s[1..]))
    else match ReadVarint(s[1..])
      case None => None
      case Some(r) => Some(Read((s[0] as int) - 128 + 128 * r.value, r.rest))
  }

  lemma {:induction false} VarintRoundTrip(v: nat, rest: seq<byte>)
    ensures ReadVarint(Varint(v) + rest) == Some(Read(v, rest))
    decreases v
  {
    var s := Varint(v) + rest;
    if v > 127 {
      VarintRoundTrip(v / 128, rest);
      assert s[1..] == Varint(v / 128) + rest;
    } else {
      assert s == [v] + rest;
    }
  }

  // ------------------------------------------------------------------
  // Fields
  // ------------------------------------------------------------------

  datatype Field = Number(num: nat, value: nat) | Data(num: nat, bytes: seq<byte>)

  function EncodedField(f: Field): (s: seq<byte>)
    ensures |s| >= 1
  {
    match f
    case Number(num, value) => Varint(num * 8) + Varint(value)
    case Data(num, bytes) => Varint(num * 8 + 2) + (Varint(|bytes|) + bytes)
  }

  function Encoded(fs: seq<Field>): seq<byte> {
    if fs == [] then [] else EncodedField(fs[0]) + Encoded(fs[1..])
  }

  method EncodeProtobufVarintField(fieldNumber: nat, value: nat) returns (out: seq<byte>)
    ensures out == EncodedField(Number(fieldNumber, value))
  {
    var tag := EncodeVarint(fieldNumber * 8);
    var v := EncodeVarint(value);
    out := tag + v;
  }

  method EncodeProtobufLengthDelimited(fieldNumber: nat, data: seq<byte>) returns (out: seq<byte>)
    ensures out == EncodedField(Data(fieldNumber, data))
  {
    var tag := EncodeVarint(fieldNumber * 8 + 2);
    var length := EncodeVarint(|data|);
    out := tag + (length + data);
  }

  function ReadField(s: seq<byte>): (r: Option<Read<Field>>)
    ensures r.Some? ==> |r.value.rest| < |s|
  {
    match ReadVarint(s)
    case None => None
    case Some(tag) =>
      match ReadVarint(tag.rest)
      case None => None
      case Some(v) =>
        if tag.value % 8 == 0 then Some(Read(Number(tag.value / 8, v.value), v.rest))
        else if tag.value % 8 == 2 && v.value <= |v.rest|
        then Some(Read(Data(tag.value / 8, v.rest[..v.value]), v.rest[v.value..]))
        else None
  }

  /** The protobuf decoder: all fields of a message, in order. */
  function Decoded(s: seq<byte>): (fs: Option<seq<Field>>)
    decreases |s|
  {
    if s == [] then Some([])
    else match ReadField(s)
      case None => None
      case Some(f) =>
        match Decoded(f.rest)
        case None => None
        case Some(rest) => Some([f.value] + rest)
  }

  lemma TagBits(num: nat)
    ensures num * 8 / 8 == num && num * 8 % 8 == 0
    ensures (num * 8 + 2) / 8 == num && (num * 8 + 2) % 8 == 2
  {
  }

  lemma FieldRoundTrip(f: Field, rest: seq<byte>)
    ensures ReadField(EncodedField(f) + rest) == Some(Read(f, rest))
  {
    TagBits(f.num);
    match f {
      case Number(num, value) =>
        VarintRoundTrip(num * 8, Varint(value) + rest);
        VarintRoundTrip(value, rest);
        Assoc(Varint(num * 8), Varint(value), rest);
      case Data(num, bytes) =>
        var more := bytes + rest;
        VarintRoundTrip(num * 8 + 2, Varint(|bytes|) + more);
        VarintRoundTrip(|bytes|, more);
        Assoc(Varint(num * 8 + 2), Varint(|bytes|) + bytes, rest);
        Assoc(Varint(|bytes|), bytes, rest);
        assert more[..|bytes|] == bytes && more[|bytes|..] == rest;
    }
  }

  lemma DecodedFirst(f: Field, s: seq<byte>, fs: seq<Field>)
    requires Decoded(s) == Some(fs)
    ensures Decoded(EncodedField(f) + s) == Some([f] + fs)
  {
    FieldRoundTrip(f, s);
  }

  /** Decoding gives back any encoded message. */
  lemma {:induction false} MessageRoundTrip(fs: seq<Field>)
    ensures Decoded(Encoded(fs)) == Some(fs)
  {
    if fs != [] {
      assert Decoded(Encoded(fs[1..])) == Some(fs[1..]) by { MessageRoundTrip(fs[1..]); }
      DecodedFirst(fs[0], Encoded(fs[1..]), fs[1..]);
      assert fs == [fs[0]] + fs[1..];
    }
  }

  /** The examples of the protobuf encoding's own description: 150 in field 1, and the
      text "testing" in field 2. */
  lemma FieldExamples()
    ensures EncodedField(Number(1, 150)) == [0x08, 0x96, 0x01]
    ensures EncodedField(Data(2, [0x74, 0x65, 0x73, 0x74, 0x69, 0x6e, 0x67])) == [0x12, 0x07, 0x74, 0x65, 0x73, 0x74, 0x69, 0x6e, 0x67]
  {
    assert Varint(150) == [0x96] + Varint(1) && Varint(1) == [0x01] && Varint(8) == [0x08];
    assert Varint(18) == [0x12] && Varint(7) == [0x07];
  }

  // ------------------------------------------------------------------
  // Subscription lists
  // ------------------------------------------------------------------

  /** uint64(pid) of a signed integer. */
  function Unsigned(pid: int): nat {
    pid % TWO64
  }

  function EntryFields(pid: int, ssrc: uint32): seq<Field> {
    [Number(1, Unsigned(pid)), Number(2, 1), Number(3, ssrc)]
  }

  /** One entry for each ssrc that is not zero. */
  function Entries(ssrcs: seq<uint32>, pid: int): seq<Field> {
    if ssrcs == [] then []
    else (if ssrcs[0] == 0 then [] else [Data(1, Encoded(EntryFields(pid, ssrcs[0])))]) + Entries(ssrcs[1..], pid)
  }

  lemma {:induction false} EncodedAppend(a: seq<Field>, b: seq<Field>)
    ensures Encoded(a + b) == Encoded(a) + Encoded(b)
  {
    if a == [] {
      NilLeft(b);
      NilLeft(Encoded(b));
    } else {
      assert (a + b)[0] == a[0] && (a + b)[1..] == a[1..] + b;
      EncodedAppend(a[1..], b);
      Assoc(EncodedField(a[0]), Encoded(a[1..]), Encoded(b));
    }
  }

  method BuildEntry(pid: int, ssrc: uint32) returns (entry: seq<byte>)
    ensures entry == EncodedField(Data(1, Encoded(EntryFields(pid, ssrc))))
  {
    var a := EncodeProtobufVarintField(1, Unsigned(pid));
    var b := EncodeProtobufVarintField(2, 1);
    var c := EncodeProtobufVarintField(3, ssrc);
    ThreeFields(Number(1, Unsigned(pid)), Number(2, 1), Number(3, ssrc));
    entry := EncodeProtobufLengthDelimited(1, a + b + c);
  }

  lemma ThreeFields(f: Field, g: Field, h: Field)
    ensures Encoded([f, g, h]) == EncodedField(f) + EncodedField(g) + EncodedField(h)
  {
    assert [f, g, h] == [f] + ([g] + [h]);
    EncodedAppend([f], [g] + [h]);
    EncodedAppend([g], [h]);
    assert Encoded([h]) == EncodedField(h) + [] && Encoded([g]) == EncodedField(g) + [] && Encoded([f]) == EncodedField(f) + [];
    Assoc(EncodedField(f), EncodedField(g), EncodedField(h));
  }

  /** One of the two loops of BuildSSRCSubscriptionList. */
  method AppendEntries(start: seq<byte>, ssrcs: seq<uint32>, pid: int) returns (out: seq<byte>)
    ensures out == start + Encoded(Entries(ssrcs, pid))
  {
    out := start;
    for i := 0 to |ssrcs|
      invariant start + Encoded(Entries(ssrcs, pid)) == out + Encoded(Entries(ssrcs[i..], pid))
    {
      ghost var rest := Entries(ssrcs[i + 1..], pid);
      assert ssrcs[i..][0] == ssrcs[i] && ssrcs[i..][1..] == ssrcs[i + 1..];
      if ssrcs[i] == 0 {
        NilLeft(rest);
        continue;
      }
      var entry := BuildEntry(pid, ssrcs[i]);
      ghost var f := Data(1, Encoded(EntryFields(pid, ssrcs[i])));
      assert ([f] + rest)[0] == f && ([f] + rest)[1..] == rest;
      Assoc(out, entry, Encoded(rest));
      out := out + entry;
    }
    NilRight(out);
  }

  method BuildSSRCSubscriptionList(selfSsrcs: seq<uint32>, peerSsrcs: seq<uint32>, selfPid: int, peerPid: int)
    returns (list: seq<byte>)
    ensures list == Encoded(Entries(selfSsrcs, selfPid) + Entries(peerSsrcs, peerPid))
  {
    list := AppendEntries([], selfSsrcs, selfPid);
    NilLeft(Encoded(Entries(selfSsrcs, selfPid)));
    list := AppendEntries(list, peerSsrcs, peerPid);
    EncodedAppend(Entries(selfSsrcs, selfPid), Entries(peerSsrcs, peerPid));
  }

  method BuildSenderSubscriptions(ssrc: uint32) returns (payload: seq<byte>)
    ensures payload == Encoded([Data(1, Encoded([Number(3, ssrc), Number(5, 0), Number(6, 0)]))])
  {
    var a := EncodeProtobufVarintField(3, ssrc);
    var b := EncodeProtobufVarintField(5, 0);
    var c := EncodeProtobufVarintField(6, 0);
    ThreeFields(Number(3, ssrc), Number(5, 0), Number(6, 0));
    payload := EncodeProtobufLengthDelimited(1, a + b + c);
    NilRight(payload);
  }

  // ------------------------------------------------------------------
  // What a receiver reads
  // ------------------------------------------------------------------

  datatype Subscription = Subscription(pid: nat, ssrc: nat)

  /** An entry's pid and ssrc, when it has the three fields. */
  function AsSubscription(f: Field): Option<Subscription> {
    if !f.Data? || f.num != 1 then None
    else match Decoded(f.bytes)
      case None => None
      case Some(fs) =>
        if |fs| == 3 && fs[0].Number? && fs[0].num == 1 && fs[1] == Number(2, 1) && fs[2].Number? && fs[2].num == 3
        then Some(Subscription(fs[0].value, fs[2].value)) else None
  }

  function AsSubscriptions(fs: seq<Field>): Option<seq<Subscription>> {
    if fs == [] then Some([])
    else match AsSubscription(fs[0])
      case None => None
      case Some(x) =>
        match AsSubscriptions(fs[1..])
        case None => None
        case Some(rest) => Some([x] + rest)
  }

  function ReadList(s: seq<byte>): Option<seq<Subscription>> {
    match Decoded(s)
    case None => None
    case Some(fs) => AsSubscriptions(fs)
  }

  function NonZero(ssrcs: seq<uint32>, pid: int): seq<Subscription> {
    if ssrcs == [] then []
    else (if ssrcs[0] == 0 then [] else [Subscription(Unsigned(pid), ssrcs[0])]) + NonZero(ssrcs[1..], pid)
  }

  lemma EntryReads(pid: int, ssrc: uint32)
    ensures AsSubscription(Data(1, Encoded(EntryFields(pid, ssrc)))) == Some(Subscription(Unsigned(pid), ssrc))
  {
    MessageRoundTrip(EntryFields(pid, ssrc));
  }

  lemma {:induction false} EntriesRead(ssrcs: seq<uint32>, pid: int, more: seq<Field>, rest: seq<Subscription>)
    requires AsSubscriptions(more) == Some(rest)
    ensures AsSubscriptions(Entries(ssrcs, pid) + more) == Some(NonZero(ssrcs, pid) + rest)
  {
    if ssrcs == [] {
      NilLeft(more);
      NilLeft(rest);
    } else {
      EntriesRead(ssrcs[1..], pid, more, rest);
      var fs, xs := Entries(ssrcs[1..], pid), NonZero(ssrcs[1..], pid);
      if ssrcs[0] == 0 {
        NilLeft(fs);
        NilLeft(xs);
      } else {
        var f, x := Data(1, Encoded(EntryFields(pid, ssrcs[0]))), Subscription(Unsigned(pid), ssrcs[0]);
        EntryReads(pid, ssrcs[0]);
        Assoc([f], fs, more);
        Assoc([x], xs, rest);
        assert ([f] + (fs + more))[0] == f && ([f] + (fs + more))[1..] == fs + more;
      }
    }
  }

  lemma ListReads(selfSsrcs: seq<uint32>, peerSsrcs: seq<uint32>, selfPid: int, peerPid: int)
    ensures ReadList(Encoded(Entries(selfSsrcs, selfPid) + Entries(peerSsrcs, peerPid)))
         == Some(NonZero(selfSsrcs, selfPid) + NonZero(peerSsrcs, peerPid))
  {
    MessageRoundTrip(Entries(selfSsrcs, selfPid) + Entries(peerSsrcs, peerPid));
    EntriesRead(peerSsrcs, peerPid, [], []);
    NilRight(Entries(peerSsrcs, peerPid));
    NilRight(NonZero(peerSsrcs, peerPid));
    EntriesRead(selfSsrcs, selfPid, Entries(peerSsrcs, peerPid), NonZero(peerSsrcs, peerPid));
  }

  /** A subscription to one of these ssrcs, under this pid. */
  predicate From(ssrcs: seq<uint32>, pid: int, x: Subscription) {
    x.pid == Unsigned(pid) && x.ssrc != 0 && x.ssrc in ssrcs
  }

  /** Which ssrcs those are. */
  lemma {:induction false} NonZeroAre(ssrcs: seq<uint32>, pid: int, x: Subscription)
    ensures x in NonZero(ssrcs, pid) <==> From(ssrcs, pid, x)
  {
    if ssrcs != [] {
      NonZeroAre(ssrcs[1..], pid, x);
      assert ssrcs == [ssrcs[0]] + ssrcs[1..];
    }
  }

  /** The payload of a sender: one entry with its ssrc in field 3 and zeros in 5 and 6. */
  lemma SenderReads(ssrc: uint32)
    ensures var fs := Decoded(Encoded([Data(1, Encoded([Number(3, ssrc), Number(5, 0), Number(6, 0)]))]));
            && fs.Some? && |fs.value| == 1 && fs.value[0].Data? && fs.value[0].num == 1
            && Decoded(fs.value[0].bytes) == Some([Number(3, ssrc), Number(5, 0), Number(6, 0)])
  {
    MessageRoundTrip([Data(1, Encoded([Number(3, ssrc), Number(5, 0), Number(6, 0)]))]);
    MessageRoundTrip([Number(3, ssrc), Number(5, 0), Number(6, 0)]);
  }

  /** The fields of an entry: pid as an unsigned 64-bit number, 1, and ssrc. */
  lemma EntryFieldsAre(pid: int, ssrc: uint32)
    ensures -0x8000_0000_0000_0000 <= pid < 0x8000_0000_0000_0000 ==>
      Decoded(Encoded(EntryFields(pid, ssrc)))
      == Some([Number(1, if pid >= 0 then pid else 0x1_0000_0000_0000_0000 + pid), Number(2, 1), Number(3, ssrc)])
  {
    MessageRoundTrip(EntryFields(pid, ssrc));
  }

  /** Decoding a subscription list gives back exactly the ssrcs that are not zero, in
      order, our own before the peer's, each with its pid. */
  lemma ListRoundTrip(selfSsrcs: seq<uint32>, peerSsrcs: seq<uint32>, selfPid: int, peerPid: int)
    ensures var all := NonZero(selfSsrcs, selfPid) + NonZero(peerSsrcs, peerPid);
            && ReadList(Encoded(Entries(selfSsrcs, selfPid) + Entries(peerSsrcs, peerPid))) == Some(all)
            && forall x :: x in all <==> From(selfSsrcs, selfPid, x) || From(peerSsrcs, peerPid, x)
  {
    ListReads(selfSsrcs, peerSsrcs, selfPid, peerPid);
    var all := NonZero(selfSsrcs, selfPid) + NonZero(peerSsrcs, peerPid);
    forall x
      ensures x in all <==> From(selfSsrcs, selfPid, x) || From(peerSsrcs, peerPid, x)
    {
      NonZeroAre(selfSsrcs, selfPid, x);
      NonZeroAre(peerSsrcs, peerPid, x);
    }
  }
}
