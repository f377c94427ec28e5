/** Splitting an H.264 byte stream into NAL units
    (internal/voip/transport/h264_packet.go, Annex B of ITU-T H.264). */
module AnnexB {
  import opened Bytes

  /** Length of the start code at offset `i` of `d`: 4, 3, or 0 when there is none. */
  function CodeLen(d: seq<byte>, i: nat): (n: nat)
    ensures n > 0 ==> 3 <= n <= |d| - i
  {
    if i + 3 < |d| && d[i] == 0 && d[i + 1] == 0 && d[i + 2] == 0 && d[i + 3] == 1 then 4
    else if i + 2 < |d| && d[i] == 0 && d[i + 1] == 0 && d[i + 2] == 1 then 3
    else 0
  }

  /** Offset of the first start code at or after `i`, or `|d|`. */
  function NextCode(d: seq<byte>, i: nat): (j: nat)
    requires i <= |d|
    ensures i <= j <= |d|
    ensures j < |d| ==> CodeLen(d, j) > 0
    decreases |d| - i
  {
    if i == |d| || CodeLen(d, i) > 0 then i else NextCode(d, i + 1)
  }

  /** The end of `d[a..b]` without its trailing zero bytes. */
  function TrimEnd(d: seq<byte>, a: nat, b: nat): (e: nat)
    requires a <= b <= |d|
    ensures a <= e <= b
    ensures e > a ==> d[e - 1] != 0
  {
    if b > a && d[b - 1] == 0 then TrimEnd(d, a, b - 1) else b
  }

  /** A stretch of the data, from its first byte to the one after its last. */
  datatype Span = Span(from: nat, to: nat)

  function Cut(d: seq<byte>, s: Span): seq<byte> {
    if s.from <= s.to <= |d| then d[s.from..s.to] else []
  }

  /** Where the NAL units of `d` lie when its reader stands at `i`, just after a
      start code.  Zeros before the next start code belong to no unit; the last
      unit runs to the end of the data and keeps its zeros. */
  function Spans(d: seq<byte>, i: nat): (spans: seq<Span>)
    requires i <= |d|
    decreases |d| - i
  {
    var j := NextCode(d, i);
    if j == |d| then (if i == |d| then [] else [Span(i, j)])
    else
      var e := TrimEnd(d, i, j);
      var rest := Spans(d, j + CodeLen(d, j));
      if e == i then rest else [Span(i, e)] + rest
  }

  function Slices(d: seq<byte>, spans: seq<Span>): (ns: seq<seq<byte>>)
  {
    if spans == [] then [] else [Cut(d, spans[0])] + Slices(d, spans[1..])
  }

  /** What SplitAnnexB computes: everything before the first start code is skipped. */
  function Split(d: seq<byte>): (ns: seq<seq<byte>>) {
    var j := NextCode(d, 0);
    if j == |d| then [] else Slices(d, Spans(d, j + CodeLen(d, j)))
  }

  /** annexBStartCodeLen */
  method AnnexBStartCodeLen(data: seq<byte>, offset: nat) returns (n: nat)
    ensures n == CodeLen(data, offset)
  {
    if offset + 3 < |data| && data[offset] == 0 && data[offset + 1] == 0 &&
       data[offset + 2] == 0 && data[offset + 3] == 1 {
      return 4;
    }
    if offset + 2 < |data| && data[offset] == 0 && data[offset + 1] == 0 && data[offset + 2] == 1 {
      return 3;
    }
    return 0;
  }

  /** One unit, once the start code at `j` that ends it has been met. */
  lemma SpansStep(d: seq<byte>, i: nat, j: nat, e: nat, next: nat)
    requires i <= j < |d| && NextCode(d, i) == j && TrimEnd(d, i, j) == e
    requires next == j + CodeLen(d, j)
    ensures next <= |d|
    ensures Spans(d, i) == if e == i then Spans(d, next) else [Span(i, e)] + Spans(d, next)
  {
  }

  lemma SplitFrom(d: seq<byte>, j: nat, next: nat)
    requires NextCode(d, 0) == j < |d| && next == j + CodeLen(d, j)
    ensures next <= |d| && Split(d) == Slices(d, Spans(d, next))
  {
  }

  lemma SpansEnd(d: seq<byte>, i: nat)
    requires i <= |d| && NextCode(d, i) == |d|
    ensures Spans(d, i) == if i == |d| then [] else [Span(i, |d|)]
  {
  }

  lemma SlicesCons(d: seq<byte>, span: Span, spans: seq<Span>, n: seq<byte>)
    requires n == Cut(d, span)
    ensures Slices(d, [span] + spans) == [n] + Slices(d, spans)
  {
    assert ([span] + spans)[1..] == spans;
  }

  lemma SlicesStep(d: seq<byte>, i: nat, j: nat, e: nat, next: nat)
    requires i <= j < |d| && NextCode(d, i) == j && TrimEnd(d, i, j) == e
    requires next == j + CodeLen(d, j)
    ensures next <= |d|
    ensures var rest := Slices(d, Spans(d, next));
            Slices(d, Spans(d, i)) == if e == i then rest else [d[i..e]] + rest
  {
    SpansStep(d, i, j, e, next);
    if e > i {
      SlicesCons(d, Span(i, e), Spans(d, next), d[i..e]);
    }
  }

  /** The unit that a start code at `i` ends: the backward loop drops its trailing
      zeros, and nothing is appended when no byte is left. */
  method CloseUnit(data: seq<byte>, start: nat, i: nat, nalus: seq<seq<byte>>) returns (more: seq<seq<byte>>)
    requires start <= i <= |data|
    ensures var end := TrimEnd(data, start, i);
            more == if end == start then nalus else nalus + [data[start..end]]
  {
    var end := i;
    while end > start && data[end - 1] == 0
      invariant start <= end <= i
      invariant TrimEnd(data, start, end) == TrimEnd(data, start, i)
    {
      end := end - 1;
    }
    more := if end > start then nalus + [data[start..end]] else nalus;
  }

  /** `nalus` are the units found so far, `start` (when not -1) the first byte of
      the unit being read, and no start code lies between it and `i`. */
  ghost predicate Scanned(data: seq<byte>, nalus: seq<seq<byte>>, start: int, i: nat)
    requires -1 <= start <= i <= |data|
  {
    && NextCode(data, if start < 0 then 0 else start) == NextCode(data, i)
    && (start < 0 ==> nalus == [])
    && (start >= 0 ==> Split(data) == nalus + Slices(data, Spans(data, start)))
  }

  /** A start code at `i` ends the unit that began at `start`. */
  lemma UnitMet(data: seq<byte>, nalus: seq<seq<byte>>, start: nat, i: nat)
    requires start <= i < |data| && CodeLen(data, i) > 0
    requires Scanned(data, nalus, start, i)
    ensures var end := TrimEnd(data, start, i);
            Split(data) == (if end == start then nalus else nalus + [data[start..end]])
                         + Slices(data, Spans(data, i + CodeLen(data, i)))
  {
    var next := i + CodeLen(data, i);
    var end := TrimEnd(data, start, i);
    SlicesStep(data, start, i, end, next);
    if end > start {
      Assoc(nalus, [data[start..end]], Slices(data, Spans(data, next)));
    }
  }

  /** What meeting a start code at `i` does to the units found so far. */
  lemma CodeMet(data: seq<byte>, nalus: seq<seq<byte>>, start: int, i: nat)
    requires -1 <= start <= i < |data| && CodeLen(data, i) > 0
    requires Scanned(data, nalus, start, i)
    ensures var end := if start < 0 then start else TrimEnd(data, start, i);
            Scanned(data, if end == start then nalus else nalus + [data[start..end]],
                    i + CodeLen(data, i), i + CodeLen(data, i))
  {
    if start < 0 {
      SplitFrom(data, i, i + CodeLen(data, i));
      NilLeft(Split(data));
    } else {
      UnitMet(data, nalus, start, i);
    }
  }

  lemma DataOver(data: seq<byte>, nalus: seq<seq<byte>>, start: int)
    requires -1 <= start <= |data| && Scanned(data, nalus, start, |data|)
    ensures Split(data) == if 0 <= start < |data| then nalus + [data[start..]] else nalus
  {
    if start >= 0 {
      SpansEnd(data, start);
      if start < |data| {
        assert data[start..] == data[start..|data|];
        assert Slices(data, [Span(start, |data|)]) == [data[start..]] + [];
      }
    }
  }

  method SplitAnnexB(data: seq<byte>) returns (nalus: seq<seq<byte>>)
    ensures nalus == Split(data)
  {
    nalus := [];
    var start: int := -1;
    var i := 0;
    while i < |data|
      invariant -1 <= start <= i <= |data|
      invariant Scanned(data, nalus, start, i)
    {
      var sc := AnnexBStartCodeLen(data, i);
      if sc > 0 {
        CodeMet(data, nalus, start, i);
        if start >= 0 {
          nalus := CloseUnit(data, start, i, nalus);
        }
        i := i + sc;
        start := i;
      } else {
        i := i + 1;
      }
    }
    DataOver(data, nalus, start);
    if 0 <= start < |data| {
      nalus := nalus + [data[start..]];
    }
  }

  // ------------------------------------------------------------------
  // The byte stream grammar, and why splitting inverts it
  // ------------------------------------------------------------------

  /** The 3-byte start code, which ends every start code, at `k`. */
  predicate CodeIn(s: seq<byte>, k: nat) {
    k + 2 < |s| && s[k] == 0 && s[k + 1] == 0 && s[k + 2] == 1
  }

  ghost predicate NoCode(s: seq<byte>) {
    forall k: nat :: !CodeIn(s, k)
  }

  /** The bytes a NAL unit may have inside a stream: none of them forms a start
      code, and only the last unit of the stream may end in zero. */
  ghost predicate IsUnit(n: seq<byte>, last: bool) {
    n != [] && NoCode(n) && (!last ==> n[|n| - 1] != 0)
  }

  ghost predicate Canonical(ns: seq<seq<byte>>) {
    ns != [] ==> IsUnit(ns[0], |ns| == 1) && Canonical(ns[1..])
  }

  /** A unit as Annex B writes it: `zeros` zero bytes, a one, and the unit. */
  datatype Framed = Framed(zeros: nat, nalu: seq<byte>)

  function Stream(fs: seq<Framed>): seq<byte> {
    if fs == [] then [] else Zeros(fs[0].zeros) + [1] + fs[0].nalu + Stream(fs[1..])
  }

  function Units(fs: seq<Framed>): (ns: seq<seq<byte>>) {
    if fs == [] then [] else [fs[0].nalu] + Units(fs[1..])
  }

  ghost predicate Separated(fs: seq<Framed>) {
    forall k :: 0 <= k < |fs| ==> fs[k].zeros >= 2
  }

  lemma {:induction false} NextCodeIs(d: seq<byte>, i: nat, j: nat)
    requires i <= j <= |d|
    requires forall k :: i <= k < j ==> CodeLen(d, k) == 0
    requires j < |d| ==> CodeLen(d, j) > 0
    ensures NextCode(d, i) == j
    decreases j - i
  {
    if i < j {
      NextCodeIs(d, i + 1, j);
    }
  }

  lemma {:induction false} TrimEndIs(d: seq<byte>, a: nat, b: nat, e: nat)
    requires a <= e <= b <= |d|
    requires e > a ==> d[e - 1] != 0
    requires forall k :: e <= k < b ==> d[k] == 0
    ensures TrimEnd(d, a, b) == e
  {
    if e < b {
      TrimEndIs(d, a, b - 1, e);
    }
  }

  /** Unit `n` stands in `d` at offset `i`. */
  ghost predicate Stands(d: seq<byte>, i: nat, n: seq<byte>) {
    i + |n| <= |d| && forall k {:trigger n[k]} :: 0 <= k < |n| ==> d[i + k] == n[k]
  }

  /** Where the scan stops when `z` zeros and a one start at offset `p`. */
  function CodeAt(p: nat, z: nat): nat
    requires z >= 2
  {
    if z == 2 then p else p + z - 3
  }

  /** No start code begins inside a unit, nor among the zeros that follow it
      before the last three. */
  lemma NextUnit(d: seq<byte>, i: nat, n: seq<byte>, z: nat)
    requires n == [] || IsUnit(n, false)
    requires z >= 2 && i + |n| + z < |d|
    requires Stands(d, i, n)
    requires forall k :: i + |n| <= k < i + |n| + z ==> d[k] == 0
    requires d[i + |n| + z] == 1
    ensures NextCode(d, i) == CodeAt(i + |n|, z)
    ensures CodeAt(i + |n|, z) + CodeLen(d, CodeAt(i + |n|, z)) == i + |n| + z + 1
    ensures TrimEnd(d, i, CodeAt(i + |n|, z)) == i + |n|
  {
    var j := CodeAt(i + |n|, z);
    forall k | i <= k < j ensures CodeLen(d, k) == 0 {
      var m := k - i;
      if m + 2 < |n| {
        assert !CodeIn(n, m);
      }
      if m + 3 < |n| {
        assert !CodeIn(n, m + 1);
      }
      if m < |n| {
        assert n[|n| - 1] != 0;
      }
    }
    NextCodeIs(d, i, j);
    if n != [] {
      assert d[i + (|n| - 1)] == n[|n| - 1];
    }
    TrimEndIs(d, i, j, i + |n|);
  }

  /** Nothing ends the last unit but the end of the data. */
  lemma LastUnit(d: seq<byte>, i: nat, n: seq<byte>)
    requires NoCode(n) && Stands(d, i, n) && i + |n| == |d|
    ensures NextCode(d, i) == |d|
  {
    forall k | i <= k < |d| ensures CodeLen(d, k) == 0 {
      var m := k - i;
      if m + 2 < |n| {
        assert !CodeIn(n, m);
      }
      if m + 3 < |n| {
        assert !CodeIn(n, m + 1);
      }
    }
    NextCodeIs(d, i, |d|);
  }

  lemma CanonicalCons(n: seq<byte>, ns: seq<seq<byte>>)
    ensures Canonical([n] + ns) <==> IsUnit(n, ns == []) && Canonical(ns)
  {
    assert ([n] + ns)[1..] == ns;
  }

  /** The bytes of a unit, its start code and what follows, as they stand in `d`
      from offset `i`. */
  lemma Layout(d: seq<byte>, i: nat, n: seq<byte>, z: nat, tail: seq<byte>)
    requires i <= |d| && d[i..] == n + Zeros(z) + [1] + tail
    ensures i + |n| + z < |d| && Stands(d, i, n) && d[i + |n| + z + 1..] == tail
    ensures forall k :: i + |n| <= k < i + |n| + z ==> d[k] == 0
    ensures d[i + |n| + z] == 1
  {
    var s := d[i..];
    assert s[..|n|] == n && s[|n| + z + 1..] == tail && s[|n| + z] == 1;
    forall k | i + |n| <= k < i + |n| + z ensures d[k] == 0 {
      assert d[k] == s[k - i];
    }
  }

  lemma OneUnit(d: seq<byte>, i: nat, n: seq<byte>)
    requires n != [] && NoCode(n) && i <= |d| && d[i..] == n
    ensures Slices(d, Spans(d, i)) == [n]
  {
    assert Stands(d, i, n);
    LastUnit(d, i, n);
    SpansEnd(d, i);
    assert d[i..|d|] == n;
    assert Slices(d, [Span(i, |d|)]) == [n] + [];
  }

  /** A unit, its start code, and the units found after it. */
  lemma ThenUnits(d: seq<byte>, i: nat, n: seq<byte>, z: nat, next: nat)
    requires IsUnit(n, false) && z >= 2
    requires next == i + |n| + z + 1 <= |d| && Stands(d, i, n)
    requires forall k :: i + |n| <= k < i + |n| + z ==> d[k] == 0
    requires d[i + |n| + z] == 1
    ensures Slices(d, Spans(d, i)) == [n] + Slices(d, Spans(d, next))
  {
    NextUnit(d, i, n, z);
    SlicesStep(d, i, CodeAt(i + |n|, z), i + |n|, next);
    assert d[i..i + |n|] == n;
  }

  lemma {:induction false} UnitsFound(d: seq<byte>, i: nat, n: seq<byte>, fs: seq<Framed>)
    requires i <= |d| && d[i..] == n + Stream(fs)
    requires Canonical([n] + Units(fs)) && Separated(fs)
    ensures Slices(d, Spans(d, i)) == [n] + Units(fs)
    decreases |fs|
  {
    CanonicalCons(n, Units(fs));
    if fs == [] {
      assert d[i..] == n;
      OneUnit(d, i, n);
    } else {
      var z, f := fs[0].zeros, fs[0].nalu;
      var tail := f + Stream(fs[1..]);
      assert n + Stream(fs) == n + Zeros(z) + [1] + tail;
      Layout(d, i, n, z, tail);
      var next := i + |n| + z + 1;
      ThenUnits(d, i, n, z, next);
      UnitsFound(d, next, f, fs[1..]);
    }
  }

  lemma FirstCode(d: seq<byte>, before: seq<byte>, z: nat, tail: seq<byte>)
    requires d == before + Zeros(z) + [1] + tail
    ensures |before| + z < |d| && Stands(d, 0, before) && d[|before| + z + 1..] == tail
    ensures forall k :: |before| <= k < |before| + z ==> d[k] == 0
    ensures d[|before| + z] == 1
  {
    assert d[0..] == d;
    Layout(d, 0, before, z, tail);
  }

  lemma SkipTo(d: seq<byte>, before: seq<byte>, z: nat)
    requires (before == [] || IsUnit(before, false)) && z >= 2 && |before| + z < |d| && Stands(d, 0, before)
    requires forall k :: |before| <= k < |before| + z ==> d[k] == 0
    requires d[|before| + z] == 1
    ensures Split(d) == Slices(d, Spans(d, |before| + z + 1))
  {
    NextUnit(d, 0, before, z);
    SplitFrom(d, CodeAt(|before|, z), |before| + z + 1);
  }

  /** The first start code: everything up to it is skipped. */
  lemma FirstUnit(d: seq<byte>, before: seq<byte>, z: nat, tail: seq<byte>)
    requires before == [] || IsUnit(before, false)
    requires z >= 2 && d == before + Zeros(z) + [1] + tail
    ensures var next := |before| + z + 1; next <= |d| && d[next..] == tail && Split(d) == Slices(d, Spans(d, next))
  {
    FirstCode(d, before, z, tail);
    SkipTo(d, before, z);
  }

  lemma SplitFound(d: seq<byte>, i: nat, n: seq<byte>, fs: seq<Framed>)
    requires i <= |d| && d[i..] == n + Stream(fs) && Split(d) == Slices(d, Spans(d, i))
    requires Canonical([n] + Units(fs)) && Separated(fs)
    ensures Split(d) == [n] + Units(fs)
  {
    UnitsFound(d, i, n, fs);
  }

  lemma SplitHead(d: seq<byte>, before: seq<byte>, z: nat, n: seq<byte>, fs: seq<Framed>, tail: seq<byte>)
    requires before == [] || IsUnit(before, false)
    requires z >= 2 && d == before + Zeros(z) + [1] + tail && tail == n + Stream(fs)
    requires Canonical([n] + Units(fs)) && Separated(fs)
    ensures Split(d) == [n] + Units(fs)
  {
    FirstUnit(d, before, z, tail);
    SplitFound(d, |before| + z + 1, n, fs);
  }

  /** Splitting undoes the Annex B byte stream format: whatever comes before the first start
      code, and whatever mixture of 3- and 4-byte start codes and trailing zero bytes
      separates the units, they come back exactly and in order. */
  lemma SplitInvertsStream(before: seq<byte>, fs: seq<Framed>)
    requires before == [] || IsUnit(before, false)
    requires Canonical(Units(fs)) && Separated(fs)
    ensures Split(before + Stream(fs)) == Units(fs)
  {
    if fs == [] {
      NilRight(before);
      NothingFound(before);
    } else {
      var z, n, rest := fs[0].zeros, fs[0].nalu, fs[1..];
      Assoc(before, Zeros(z) + [1], n + Stream(rest));
      Assoc(before, Zeros(z), [1]);
      Assoc(Zeros(z) + [1], n, Stream(rest));
      assert Units(fs) == [n] + Units(rest);
      SplitHead(before + Stream(fs), before, z, n, rest, n + Stream(rest));
    }
  }

  /** Without a start code there is no unit. */
  lemma NothingFound(d: seq<byte>)
    requires NoCode(d)
    ensures Split(d) == []
  {
    LastUnit(d, 0, d);
  }

  lemma {:induction false} BeforeNextCode(d: seq<byte>, i: nat, k: nat)
    requires i <= |d| && i <= k < NextCode(d, i)
    ensures CodeLen(d, k) == 0
    decreases k - i
  {
    if i < k {
      BeforeNextCode(d, i + 1, k);
    }
  }

  lemma CleanUnit(d: seq<byte>, i: nat, end: nat, last: bool)
    requires i <= |d| && i < end <= NextCode(d, i)
    requires !last ==> d[end - 1] != 0
    ensures IsUnit(d[i..end], last)
    ensures !last ==> IsUnit(d[i..end], true)
  {
    var t := d[i..end];
    forall k: nat ensures !CodeIn(t, k) {
      if k + 2 < |t| {
        BeforeNextCode(d, i, i + k);
      }
    }
  }

  lemma {:induction false} SpansCanonical(d: seq<byte>, i: nat)
    requires i <= |d|
    ensures Canonical(Slices(d, Spans(d, i)))
    decreases |d| - i
  {
    var j := NextCode(d, i);
    if j == |d| {
      SpansEnd(d, i);
      if i < j {
        CleanUnit(d, i, j, true);
        SlicesCons(d, Span(i, j), [], d[i..j]);
        CanonicalCons(d[i..j], []);
      }
    } else {
      var e, next := TrimEnd(d, i, j), j + CodeLen(d, j);
      SpansCanonical(d, next);
      SlicesStep(d, i, j, e, next);
      if e > i {
        CleanUnit(d, i, e, false);
        CanonicalCons(d[i..e], Slices(d, Spans(d, next)));
      }
    }
  }

  /** Every unit a split returns can be written back to a stream unambiguously. */
  lemma SplitCanonical(d: seq<byte>)
    ensures Canonical(Split(d))
  {
    var j := NextCode(d, 0);
    if j < |d| {
      SpansCanonical(d, j + CodeLen(d, j));
    }
  }

  // ------------------------------------------------------------------
  // Four-byte start codes: the form the pipeline sends and receives
  // ------------------------------------------------------------------

  /** annexBStartCode */
  const START_CODE: seq<byte> := [0, 0, 0, 1]

  /** Every unit preceded by a 4-byte start code. */
  function Join(ns: seq<seq<byte>>): seq<byte> {
    if ns == [] then [] else START_CODE + ns[0] + Join(ns[1..])
  }

  function FourByte(ns: seq<seq<byte>>): (fs: seq<Framed>)
    ensures Units(fs) == ns
    ensures forall k :: 0 <= k < |fs| ==> fs[k].zeros == 3
  {
    if ns == [] then [] else [Framed(3, ns[0])] + FourByte(ns[1..])
  }

  lemma {:induction false} JoinIsStream(ns: seq<seq<byte>>)
    ensures Join(ns) == Stream(FourByte(ns))
  {
    if ns != [] {
      JoinIsStream(ns[1..]);
      assert START_CODE == Zeros(3) + [1];
    }
  }

  /** Splitting undoes joining. */
  lemma SplitJoin(ns: seq<seq<byte>>)
    requires Canonical(ns)
    ensures Split(Join(ns)) == ns
  {
    JoinIsStream(ns);
    SplitInvertsStream([], FourByte(ns));
    NilLeft(Stream(FourByte(ns)));
  }

  /** split . join . split == split, on every byte string. */
  lemma SplitJoinSplit(d: seq<byte>)
    ensures Split(Join(Split(d))) == Split(d)
  {
    SplitCanonical(d);
    SplitJoin(Split(d));
  }
}
