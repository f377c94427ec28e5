/** H.264 over RTP: fragmentation, aggregation and reassembly of NAL units
    (internal/voip/transport/h264_packet.go; sections 5.6, 5.7.1 and 5.8 of RFC 6184). */
module H264Packet {
  import opened Bytes

  const STAP_A: byte := 24
  const FU_A: byte := 28
  const MTU_PAYLOAD_MAX: nat := 800
  const FRAG_SIZE: nat := 798
  const MAX_FU_REASSEMBLY_BYTES: nat := 4 * 1024 * 1024

  /** `b & 0x1F`: the NAL unit type. */
  function NalType(b: byte): (t: byte) { b % 32 }

  /** `b & 0xE0`: the forbidden bit and the reference indicator. */
  function FBitAndNri(b: byte): (f: byte) { b - b % 32 }

  /** `b & 0x60`: the reference indicator alone. */
  function Nri(b: byte): (f: byte) { b % 128 / 32 * 32 }

  /** `b & 0x80 != 0` and `b & 0x40 != 0`: the start and end bits of an FU header. */
  predicate StartBit(b: byte) { b >= 128 }
  predicate EndBit(b: byte) { b % 128 >= 64 }

  // ------------------------------------------------------------------
  // Sending
  // ------------------------------------------------------------------

  /** The FU header: the NAL type, with the start and end bits of RFC 6184. */
  function FuHeader(h: byte, start: bool, end: bool): (f: byte)
    ensures NalType(f) == NalType(h) && StartBit(f) == start && EndBit(f) == end
  {
    NalType(h) + (if start then 128 else 0) + (if end then 64 else 0)
  }

  /** The FU indicator carries the first three bits of the NAL header. */
  function FuIndicator(h: byte): (f: byte)
    ensures NalType(f) == FU_A && FBitAndNri(f) == FBitAndNri(h)
  {
    FBitAndNri(h) + FU_A
  }

  /** One fragment: `body[offset..]` up to the fragment size. */
  function Fragment(h: byte, body: seq<byte>, offset: nat): (p: seq<byte>)
    requires offset < |body|
  {
    var end := if offset + FRAG_SIZE > |body| then |body| else offset + FRAG_SIZE;
    [FuIndicator(h), FuHeader(h, offset == 0, end == |body|)] + body[offset..end]
  }

  /** The fragments of `body` from `offset` on. */
  function Fragments(h: byte, body: seq<byte>, offset: nat): (ps: seq<seq<byte>>)
    decreases |body| - offset
  {
    if offset >= |body| then []
    else [Fragment(h, body, offset)] + Fragments(h, body, offset + FRAG_SIZE)
  }

  /** The payloads PackageH264NALU produces. */
  function Packets(nalu: seq<byte>): (ps: seq<seq<byte>>) {
    if nalu == [] then []
    else if |nalu| <= MTU_PAYLOAD_MAX then [nalu]
    else Fragments(nalu[0], nalu[1..], 0)
  }

  method PackageH264NALU(nalu: seq<byte>) returns (out: seq<seq<byte>>)
    ensures out == Packets(nalu)
  {
    if |nalu| == 0 {
      return [];
    }
    if |nalu| <= MTU_PAYLOAD_MAX {
      return [nalu];
    }
    var naluHeader := nalu[0];
    var body := nalu[1..];
    out := [];
    var offset := 0;
    while offset < |body|
      invariant Fragments(naluHeader, body, 0) == out + Fragments(naluHeader, body, offset)
      decreases |body| - offset
    {
      var end := offset + FRAG_SIZE;
      if end > |body| {
        end := |body|;
      }
      var chunk := body[offset..end];
      var fuHeader := NalType(naluHeader);
      if offset == 0 {
        fuHeader := fuHeader + 128;
      }
      if end == |body| {
        fuHeader := fuHeader + 64;
      }
      var pkt := [FuIndicator(naluHeader), fuHeader] + chunk;
      assert pkt == Fragment(naluHeader, body, offset);
      Assoc(out, [pkt], Fragments(naluHeader, body, offset + FRAG_SIZE));
      out := out + [pkt];
      if end == |body| {
        assert Fragments(naluHeader, body, offset + FRAG_SIZE) == [] == Fragments(naluHeader, body, end);
      }
      offset := end;
    }
    NilRight(out);
  }

  // ------------------------------------------------------------------
  // Aggregation
  // ------------------------------------------------------------------

  function Aggregate(nalus: seq<seq<byte>>): seq<byte> {
    if nalus == [] then [] else BE16(|nalus[0]|) + nalus[0] + Aggregate(nalus[1..])
  }

  function MaxNri(nalus: seq<seq<byte>>): (m: byte)
    ensures m <= 96 && m % 32 == 0
  {
    if nalus == [] then 0
    else
      var rest := MaxNri(nalus[..|nalus| - 1]);
      var last := nalus[|nalus| - 1];
      if last != [] && Nri(last[0]) > rest then Nri(last[0]) else rest
  }

  /** STAP-A takes two units or more, none empty or longer than 16 bits can say,
      that fit one payload together. */
  predicate Aggregable(nalus: seq<seq<byte>>) {
    && |nalus| >= 2
    && (forall k :: 0 <= k < |nalus| ==> 0 < |nalus[k]| <= 0xFFFF)
    && 1 + |Aggregate(nalus)| <= MTU_PAYLOAD_MAX
  }

  function StapPayload(nalus: seq<seq<byte>>): seq<byte> {
    [MaxNri(nalus) + STAP_A] + Aggregate(nalus)
  }

  lemma {:induction false} AggregateSnoc(ns: seq<seq<byte>>, n: seq<byte>)
    ensures Aggregate(ns + [n]) == Aggregate(ns) + (BE16(|n|) + n)
  {
    if ns == [] {
      assert ns + [n] == [n];
      NilRight(BE16(|n|) + n);
      NilLeft(BE16(|n|) + n);
    } else {
      assert (ns + [n])[1..] == ns[1..] + [n];
      AggregateSnoc(ns[1..], n);
      Assoc(BE16(|ns[0]|) + ns[0], Aggregate(ns[1..]), BE16(|n|) + n);
    }
  }

  lemma {:induction false} AggregatePrefix(ns: seq<seq<byte>>, k: nat)
    requires k <= |ns|
    ensures |Aggregate(ns[..k])| <= |Aggregate(ns)|
    decreases |ns| - k
  {
    if k == |ns| {
      assert ns[..k] == ns;
    } else {
      assert ns[..k + 1] == ns[..k] + [ns[k]];
      AggregateSnoc(ns[..k], ns[k]);
      AggregatePrefix(ns, k + 1);
    }
  }

  /** One more unit. */
  lemma PrefixStep(nalus: seq<seq<byte>>, k: nat)
    requires k < |nalus|
    ensures Aggregate(nalus[..k + 1]) == Aggregate(nalus[..k]) + (BE16(|nalus[k]|) + nalus[k])
    ensures MaxNri(nalus[..k + 1])
         == if nalus[k] != [] && Nri(nalus[k][0]) > MaxNri(nalus[..k]) then Nri(nalus[k][0]) else MaxNri(nalus[..k])
  {
    assert nalus[..k + 1] == nalus[..k] + [nalus[k]];
    AggregateSnoc(nalus[..k], nalus[k]);
    assert nalus[..k + 1][..k] == nalus[..k];
  }

  /** The first loop of PackageH264STAPA: the limits, and the highest reference
      indicator among the units. */
  method StapLimits(nalus: seq<seq<byte>>) returns (fits: bool, maxNri: byte)
    requires |nalus| >= 2
    ensures fits == Aggregable(nalus)
    ensures fits ==> maxNri == MaxNri(nalus)
  {
    var total := 1;
    maxNri := 0;
    for k := 0 to |nalus|
      invariant forall m :: 0 <= m < k ==> 0 < |nalus[m]| <= 0xFFFF
      invariant total == 1 + |Aggregate(nalus[..k])| <= MTU_PAYLOAD_MAX
      invariant maxNri == MaxNri(nalus[..k])
    {
      var n := nalus[k];
      if |n| == 0 || |n| > 0xFFFF {
        return false, 0;
      }
      PrefixStep(nalus, k);
      total := total + 2 + |n|;
      if total > MTU_PAYLOAD_MAX {
        AggregatePrefix(nalus, k + 1);
        return false, 0;
      }
      var nri := Nri(n[0]);
      if nri > maxNri {
        maxNri := nri;
      }
    }
    assert nalus[..|nalus|] == nalus;
    fits := true;
  }

  /** PackageH264STAPA: `nil` (the empty payload) when the units do not aggregate. */
  method PackageH264STAPA(nalus: seq<seq<byte>>) returns (out: seq<byte>)
    ensures out == if Aggregable(nalus) then StapPayload(nalus) else []
  {
    if |nalus| < 2 {
      return [];
    }
    var fits, maxNri := StapLimits(nalus);
    if !fits {
      return [];
    }
    out := [maxNri + STAP_A];
    for k := 0 to |nalus|
      invariant out == [maxNri + STAP_A] + Aggregate(nalus[..k])
    {
      PrefixStep(nalus, k);
      Assoc([maxNri + STAP_A], Aggregate(nalus[..k]), BE16(|nalus[k]|) + nalus[k]);
      out := out + (BE16(|nalus[k]|) + nalus[k]);
    }
    assert nalus[..|nalus|] == nalus;
  }

  // ------------------------------------------------------------------
  // Receiving
  // ------------------------------------------------------------------

  /** The units of a STAP-A body, up to the first one that does not fit. */
  function StapUnits(body: seq<byte>): (out: seq<seq<byte>>)
    decreases |body|
  {
    if |body| < 2 then []
    else
      var size := U16(body);
      if size == 0 || size > |body| - 2 then []
      else [body[2..2 + size]] + StapUnits(body[2 + size..])
  }

  lemma StapStep(body: seq<byte>, size: nat)
    requires |body| >= 2 && size == U16(body) && 0 < size <= |body| - 2
    ensures StapUnits(body) == [body[2..][..size]] + StapUnits(body[2..][size..])
  {
    assert body[2..][..size] == body[2..2 + size];
    assert body[2..][size..] == body[2 + size..];
  }

  /** The STAP-A loop of Depacketize. */
  method SplitStapA(units: seq<byte>) returns (out: seq<seq<byte>>)
    ensures out == StapUnits(units)
  {
    var body := units;
    out := [];
    while |body| >= 2
      invariant StapUnits(units) == out + StapUnits(body)
      decreases |body|
    {
      var size := U16(body);
      if size <= 0 || size > |body| - 2 {
        NilRight(out);
        return;
      }
      StapStep(body, size);
      body := body[2..];
      Assoc(out, [body[..size]], StapUnits(body[size..]));
      out := out + [body[..size]];
      body := body[size..];
    }
    NilRight(out);
  }

  /** The depacketizer's fields.  `fuType` and `fuNriF` are written and never read. */
  datatype DepackState = DepackState(fuBuf: seq<byte>, fuType: byte, fuNriF: byte, fuActive: bool)

  datatype DepackResult = DepackResult(state: DepackState, out: seq<seq<byte>>)

  function FuStep(s: DepackState, payload: seq<byte>): (r: DepackResult)
    requires |payload| >= 2 && NalType(payload[0]) == FU_A
  {
    var start, end := StartBit(payload[1]), EndBit(payload[1]);
    var body := payload[2..];
    if start then
      var buf := [FBitAndNri(payload[0]) + NalType(payload[1])] + body;
      var t, f := NalType(payload[1]), FBitAndNri(payload[0]);
      if end then DepackResult(DepackState([], t, f, false), [buf])
      else DepackResult(DepackState(buf, t, f, true), [])
    else if !s.fuActive then DepackResult(s, [])
    else if |s.fuBuf| + |body| > MAX_FU_REASSEMBLY_BYTES then
      DepackResult(s.(fuActive := false, fuBuf := []), [])
    else if end then DepackResult(s.(fuActive := false, fuBuf := []), [s.fuBuf + body])
    else DepackResult(s.(fuBuf := s.fuBuf + body), [])
  }

  /** What one call of Depacketize does. */
  function DepackStep(s: DepackState, payload: seq<byte>): (r: DepackResult) {
    if |payload| < 1 then DepackResult(s, [])
    else
      var t := NalType(payload[0]);
      if 1 <= t <= 23 then DepackResult(s.(fuActive := false), [payload])
      else if t == STAP_A then DepackResult(s.(fuActive := false), StapUnits(payload[1..]))
      else if t == FU_A && |payload| >= 2 then FuStep(s, payload)
      else DepackResult(s.(fuActive := false), [])
  }

  class H264Depacketizer {
    var fuBuf: seq<byte>
    var fuType: byte
    var fuNriF: byte
    var fuActive: bool

    function State(): DepackState
      reads this
    {
      DepackState(fuBuf, fuType, fuNriF, fuActive)
    }

    constructor ()
      ensures State() == DepackState([], 0, 0, false)
    {
      fuBuf, fuType, fuNriF, fuActive := [], 0, 0, false;
    }

    method Depacketize(payload: seq<byte>) returns (out: seq<seq<byte>>)
      modifies this
      ensures DepackResult(State(), out) == DepackStep(old(State()), payload)
    {
      if |payload| < 1 {
        return [];
      }
      var naluType, fbitAndNri := NalType(payload[0]), FBitAndNri(payload[0]);
      if 1 <= naluType <= 23 {
        fuActive := false;
        return [payload];
      } else if naluType == STAP_A {
        fuActive := false;
        out := SplitStapA(payload[1..]);
      } else if naluType == FU_A {
        if |payload| < 2 {
          fuActive := false;
          return [];
        }
        var fuHeader := payload[1];
        var body := payload[2..];
        if StartBit(fuHeader) {
          fuActive := true;
          fuType := NalType(fuHeader);
          fuNriF := fbitAndNri;
          fuBuf := [fbitAndNri + NalType(fuHeader)];
          fuBuf := fuBuf + body;
        } else if fuActive {
          if |fuBuf| + |body| > MAX_FU_REASSEMBLY_BYTES {
            fuActive := false;
            fuBuf := [];
            return [];
          }
          fuBuf := fuBuf + body;
        } else {
          return [];
        }
        if EndBit(fuHeader) && fuActive {
          fuActive := false;
          out := [fuBuf];
          fuBuf := [];
          return;
        }
        return [];
      } else {
        fuActive := false;
        return [];
      }
    }
  }

  // ------------------------------------------------------------------
  // Reassembly undoes fragmentation
  // ------------------------------------------------------------------

  /** The state after a list of payloads. */
  function DepackAll(s: DepackState, ps: seq<seq<byte>>): (s': DepackState)
    decreases |ps|
  {
    if ps == [] then s else DepackAll(DepackStep(s, ps[0]).state, ps[1..])
  }

  /** The units each payload of a list yields. */
  function Yields(s: DepackState, ps: seq<seq<byte>>): (outs: seq<seq<seq<byte>>>)
    decreases |ps|
  {
    if ps == [] then []
    else [DepackStep(s, ps[0]).out] + Yields(DepackStep(s, ps[0]).state, ps[1..])
  }

  /** Nothing from every payload but the last, and from it exactly `n`. */
  ghost predicate OnlyAtEnd(outs: seq<seq<seq<byte>>>, n: seq<byte>) {
    && |outs| > 0
    && (forall k :: 0 <= k < |outs| - 1 ==> outs[k] == [])
    && outs[|outs| - 1] == [n]
  }

  lemma OnlyAtEndCons(outs: seq<seq<seq<byte>>>, n: seq<byte>)
    requires OnlyAtEnd(outs, n)
    ensures OnlyAtEnd([[]] + outs, n)
  {
  }

  lemma YieldsCons(s: DepackState, p: seq<byte>, ps: seq<seq<byte>>)
    ensures Yields(s, [p] + ps) == [DepackStep(s, p).out] + Yields(DepackStep(s, p).state, ps)
    ensures DepackAll(s, [p] + ps) == DepackAll(DepackStep(s, p).state, ps)
  {
    assert ([p] + ps)[1..] == ps;
  }

  /** The units a peer can recover: not empty, of a type that travels as itself
      when the unit fits one payload, and within the reassembly limit. */
  predicate Deliverable(n: seq<byte>) {
    && n != []
    && (|n| <= MTU_PAYLOAD_MAX ==> 1 <= NalType(n[0]) <= 23)
    && |n| <= MAX_FU_REASSEMBLY_BYTES
  }

  /** A middle or last fragment reaching an open reassembly. */
  lemma NextFragment(s: DepackState, h: byte, body: seq<byte>, offset: nat)
    requires 0 < offset < |body| && 1 + |body| <= MAX_FU_REASSEMBLY_BYTES
    requires s.fuActive && s.fuBuf == [h] + body[..offset]
    ensures var r := DepackStep(s, Fragment(h, body, offset));
            if offset + FRAG_SIZE >= |body|
            then r == DepackResult(s.(fuActive := false, fuBuf := []), [[h] + body])
            else r == DepackResult(s.(fuBuf := [h] + body[..offset + FRAG_SIZE]), [])
  {
    var end := if offset + FRAG_SIZE > |body| then |body| else offset + FRAG_SIZE;
    var p := Fragment(h, body, offset);
    assert p[2..] == body[offset..end];
    Assoc([h], body[..offset], body[offset..end]);
    assert body[..offset] + body[offset..end] == body[..end];
    if end == |body| {
      assert body[..end] == body;
    }
  }

  lemma {:induction false} RestOfFragments(s: DepackState, h: byte, body: seq<byte>, offset: nat)
    requires 0 < offset < |body| && 1 + |body| <= MAX_FU_REASSEMBLY_BYTES
    requires s.fuActive && s.fuBuf == [h] + body[..offset]
    ensures OnlyAtEnd(Yields(s, Fragments(h, body, offset)), [h] + body)
    ensures !DepackAll(s, Fragments(h, body, offset)).fuActive
    decreases |body| - offset
  {
    var next := offset + FRAG_SIZE;
    var p, rest := Fragment(h, body, offset), Fragments(h, body, next);
    YieldsCons(s, p, rest);
    NextFragment(s, h, body, offset);
    if next < |body| {
      var s' := DepackStep(s, p).state;
      RestOfFragments(s', h, body, next);
      OnlyAtEndCons(Yields(s', rest), [h] + body);
    }
  }

  lemma FirstFragment(s: DepackState, h: byte, body: seq<byte>)
    requires |body| > FRAG_SIZE
    ensures var r := DepackStep(s, Fragment(h, body, 0));
            r.out == [] && r.state.fuActive && r.state.fuBuf == [h] + body[..FRAG_SIZE]
  {
    var p := Fragment(h, body, 0);
    assert p[2..] == body[0..FRAG_SIZE] == body[..FRAG_SIZE];
  }

  /** Whatever the depacketizer was doing before, the payloads of a deliverable
      unit yield nothing until the last, and then exactly that unit; no fragment
      stays open behind it. */
  lemma RoundTrip(s: DepackState, n: seq<byte>)
    requires Deliverable(n)
    ensures OnlyAtEnd(Yields(s, Packets(n)), n)
    ensures !DepackAll(s, Packets(n)).fuActive
  {
    if |n| <= MTU_PAYLOAD_MAX {
      YieldsCons(s, n, []);
    } else {
      var h, body := n[0], n[1..];
      assert n == [h] + body;
      var p, rest := Fragment(h, body, 0), Fragments(h, body, FRAG_SIZE);
      YieldsCons(s, p, rest);
      FirstFragment(s, h, body);
      var s' := DepackStep(s, p).state;
      RestOfFragments(s', h, body, FRAG_SIZE);
      OnlyAtEndCons(Yields(s', rest), n);
    }
  }

  ghost predicate AllNil(outs: seq<seq<seq<byte>>>) {
    outs == [] || (outs[0] == [] && AllNil(outs[1..]))
  }

  lemma AllNilCons(outs: seq<seq<seq<byte>>>)
    requires AllNil(outs)
    ensures AllNil([[]] + outs)
  {
    assert ([[]] + outs)[1..] == outs;
  }

  lemma {:induction false} AllNilAt(outs: seq<seq<seq<byte>>>, k: nat)
    requires AllNil(outs) && k < |outs|
    ensures outs[k] == []
  {
    if k > 0 {
      AllNilAt(outs[1..], k - 1);
    }
  }

  /** Fragments that continue nothing are dropped. */
  lemma {:induction false} Orphans(s: DepackState, h: byte, body: seq<byte>, offset: nat)
    requires 0 < offset && !s.fuActive
    ensures AllNil(Yields(s, Fragments(h, body, offset)))
    decreases |body| - offset
  {
    if offset < |body| {
      var p, rest := Fragment(h, body, offset), Fragments(h, body, offset + FRAG_SIZE);
      YieldsCons(s, p, rest);
      assert DepackStep(s, p) == DepackResult(s, []);
      Orphans(s, h, body, offset + FRAG_SIZE);
      AllNilCons(Yields(s, rest));
    }
  }

  /** A unit over the reassembly limit is lost entirely. */
  lemma {:induction false} Overlong(s: DepackState, h: byte, body: seq<byte>, offset: nat)
    requires 0 < offset < |body| && 1 + |body| > MAX_FU_REASSEMBLY_BYTES
    requires s.fuActive && s.fuBuf == [h] + body[..offset]
    ensures AllNil(Yields(s, Fragments(h, body, offset)))
    decreases |body| - offset
  {
    var next := offset + FRAG_SIZE;
    var p, rest := Fragment(h, body, offset), Fragments(h, body, next);
    YieldsCons(s, p, rest);
    var end := if next > |body| then |body| else next;
    assert p[2..] == body[offset..end];
    var r := DepackStep(s, p);
    if 1 + end > MAX_FU_REASSEMBLY_BYTES {
      assert r == DepackResult(s.(fuActive := false, fuBuf := []), []);
      Orphans(r.state, h, body, next);
    } else {
      Assoc([h], body[..offset], body[offset..end]);
      assert body[..offset] + body[offset..end] == body[..end];
      assert r == DepackResult(s.(fuBuf := [h] + body[..end]), []);
      Overlong(r.state, h, body, next);
    }
    AllNilCons(Yields(r.state, rest));
  }

  lemma OverlongLost(s: DepackState, n: seq<byte>)
    requires |n| > MAX_FU_REASSEMBLY_BYTES
    ensures AllNil(Yields(s, Packets(n))) && Yields(s, Packets(n)) != []
  {
    var h, body := n[0], n[1..];
    var p, rest := Fragment(h, body, 0), Fragments(h, body, FRAG_SIZE);
    YieldsCons(s, p, rest);
    FirstFragment(s, h, body);
    var s' := DepackStep(s, p).state;
    Overlong(s', h, body, FRAG_SIZE);
    AllNilCons(Yields(s', rest));
  }

  lemma {:induction false} StapUnitsShort(body: seq<byte>, k: nat)
    requires k < |StapUnits(body)|
    ensures |StapUnits(body)[k]| < |body|
    decreases |body|
  {
    if k > 0 {
      StapUnitsShort(body[2 + U16(body)..], k - 1);
    }
  }

  /** The exact condition: with no fragment open, a unit comes back, alone and from
      its last payload, if and only if it is deliverable. */
  lemma RoundTripIff(s: DepackState, n: seq<byte>)
    requires !s.fuActive
    ensures OnlyAtEnd(Yields(s, Packets(n)), n) <==> Deliverable(n)
  {
    if Deliverable(n) {
      RoundTrip(s, n);
    } else if n == [] {
    } else if |n| <= MTU_PAYLOAD_MAX {
      YieldsCons(s, n, []);
      var out := DepackStep(s, n).out;
      if NalType(n[0]) == STAP_A && |out| > 0 {
        StapUnitsShort(n[1..], 0);
      }
      assert out != [n];
    } else {
      OverlongLost(s, n);
      var outs := Yields(s, Packets(n));
      AllNilAt(outs, |outs| - 1);
    }
  }

  /** Sizes and bits on the wire: no payload is longer than 800 bytes, and no FU-A
      payload of a fragmented unit carries both the start and the end bit; exactly
      the first starts and exactly the last ends. */
  lemma {:induction false} FragmentsWellFormed(h: byte, body: seq<byte>, offset: nat, k: nat)
    requires |body| > FRAG_SIZE && offset % FRAG_SIZE == 0
    requires k < |Fragments(h, body, offset)|
    ensures var p := Fragments(h, body, offset)[k];
            && 3 <= |p| <= MTU_PAYLOAD_MAX
            && NalType(p[0]) == FU_A && !(StartBit(p[1]) && EndBit(p[1]))
            && (StartBit(p[1]) <==> offset == 0 && k == 0)
            && (EndBit(p[1]) <==> k == |Fragments(h, body, offset)| - 1)
    decreases |body| - offset
  {
    if k > 0 {
      FragmentsWellFormed(h, body, offset + FRAG_SIZE, k - 1);
    }
  }

  lemma StapHead(n: seq<byte>, tail: seq<byte>)
    requires 0 < |n| <= 0xFFFF
    ensures StapUnits(BE16(|n|) + n + tail) == [n] + StapUnits(tail)
  {
    var body := BE16(|n|) + n + tail;
    Assoc(BE16(|n|), n, tail);
    U16OfBE16(|n|, n + tail);
    assert body[2..] == n + tail;
    StapStep(body, |n|);
    assert (n + tail)[..|n|] == n && (n + tail)[|n|..] == tail;
  }

  /** What PackageH264STAPA aggregates, one payload gives back in order. */
  lemma {:induction false} StapRoundTrip(nalus: seq<seq<byte>>)
    requires forall k :: 0 <= k < |nalus| ==> 0 < |nalus[k]| <= 0xFFFF
    ensures StapUnits(Aggregate(nalus)) == nalus
  {
    if nalus != [] {
      StapHead(nalus[0], Aggregate(nalus[1..]));
      StapRoundTrip(nalus[1..]);
    }
  }

  lemma AggregateRoundTrip(s: DepackState, nalus: seq<seq<byte>>)
    requires Aggregable(nalus)
    ensures DepackStep(s, StapPayload(nalus)) == DepackResult(s.(fuActive := false), nalus)
    ensures |StapPayload(nalus)| <= MTU_PAYLOAD_MAX
  {
    assert StapPayload(nalus)[1..] == Aggregate(nalus);
    StapRoundTrip(nalus);
  }
}
