/** CRC-16/CCITT-FALSE, bit by bit (cmd/server/pixsend.go:32-47). */
module Crc16 {

  predicate High(crc: bv16) {
    crc & 0x8000 != 0
  }

  /** Shift out one bit, and subtract the polynomial when it is set. */
  function BitStep(crc: bv16): bv16 {
    if High(crc) then (crc << 1) ^ 0x1021 else crc << 1
  }

  function Times<T>(step: T -> T, x: T, n: nat): T {
    if n == 0 then x else step(Times(step, x, n - 1))
  }

  /** A byte into the high end of the register. */
  function Mix(crc: bv16, b: bv8): bv16 {
    crc ^ (b as bv16 << 8)
  }

  /** One byte into the register, and its eight bits out. */
  function ByteStep(crc: bv16, b: bv8): bv16 {
    Times(BitStep, Mix(crc, b), 8)
  }

  function CrcFrom(crc: bv16, s: seq<bv8>): bv16 {
    if s == [] then crc else ByteStep(CrcFrom(crc, s[..|s| - 1]), s[|s| - 1])
  }

  function Crc(s: seq<bv8>): bv16 {
    CrcFrom(0xFFFF, s)
  }

  /** The inner loop. */
  method ShiftByte(crc: bv16) returns (out: bv16)
    ensures out == Times(BitStep, crc, 8)
  {
    out := crc;
    for j := 0 to 8
      invariant out == Times(BitStep, crc, j)
    {
      out := ShiftBit(out);
    }
  }

  method ShiftBit(crc: bv16) returns (out: bv16)
    ensures out == BitStep(crc)
  {
    if crc & 0x8000 != 0 {
      out := (crc << 1) ^ 0x1021;
    } else {
      out := crc << 1;
    }
  }

  method Crc16Ccitt(s: seq<bv8>) returns (crc: bv16)
    ensures crc == Crc(s)
  {
    crc := 0xFFFF;
    for i := 0 to |s|
      invariant crc == CrcFrom(0xFFFF, s[..i])
    {
      assert s[..i + 1][..i] == s[..i];
      crc := crc ^ (s[i] as bv16 << 8);
      crc := ShiftByte(crc);
    }
    assert s[..|s|] == s;
  }

  // ------------------------------------------------------------------
  // The check value
  // ------------------------------------------------------------------

  /** Eight bits, written out. */
  lemma EightBits(x: bv16)
    ensures Times(BitStep, x, 8) == BitStep(BitStep(BitStep(BitStep(BitStep(BitStep(BitStep(BitStep(x))))))))
  {
    var f := BitStep;
    assert Times(f, x, 4) == BitStep(BitStep(BitStep(BitStep(x))));
    assert Times(f, x, 8) == BitStep(BitStep(BitStep(BitStep(Times(f, x, 4)))));
  }

  lemma OneByte(crc: bv16, s: seq<bv8>, b: bv8, t: seq<bv8>)
    requires CrcFrom(0xffff, s) == crc && t == s + [b]
    ensures CrcFrom(0xffff, t)
         == BitStep(BitStep(BitStep(BitStep(BitStep(BitStep(BitStep(BitStep(crc ^ (b as bv16 << 8)))))))))
  {
    assert t[..|s|] == s;
    EightBits(crc ^ (b as bv16 << 8));
  }

  /** The published check value of CRC-16/CCITT-FALSE: 0x29B1 for the nine digits. */
  lemma CheckValue()
    ensures Crc([0x31, 0x32, 0x33, 0x34, 0x35, 0x36, 0x37, 0x38, 0x39]) == 0x29b1
  {
    var s: seq<bv8> := [0x31, 0x32, 0x33, 0x34, 0x35, 0x36, 0x37, 0x38, 0x39];
    OneByte(0xffff, s[..0], 0x31, s[..1]);
    assert CrcFrom(0xffff, s[..1]) == 0xc782;
    OneByte(0xc782, s[..1], 0x32, s[..2]);
    assert CrcFrom(0xffff, s[..2]) == 0x3dba;
    OneByte(0x3dba, s[..2], 0x33, s[..3]);
    assert CrcFrom(0xffff, s[..3]) == 0x5bce;
    OneByte(0x5bce, s[..3], 0x34, s[..4]);
    assert CrcFrom(0xffff, s[..4]) == 0x5349;
    OneByte(0x5349, s[..4], 0x35, s[..5]);
    assert CrcFrom(0xffff, s[..5]) == 0x4560;
    OneByte(0x4560, s[..5], 0x36, s[..6]);
    assert CrcFrom(0xffff, s[..6]) == 0x2ef4;
    OneByte(0x2ef4, s[..6], 0x37, s[..7]);
    assert CrcFrom(0xffff, s[..7]) == 0x7718;
    OneByte(0x7718, s[..7], 0x38, s[..8]);
    assert CrcFrom(0xffff, s[..8]) == 0xa12b;
    OneByte(0xa12b, s[..8], 0x39, s[..9]);
    assert CrcFrom(0xffff, s[..9]) == 0x29b1;
    assert s[..9] == s;
  }

  // ------------------------------------------------------------------
  // Changes that are always seen
  // ------------------------------------------------------------------

  /** The polynomial is odd, so the low bit tells whether it was subtracted. */
  function UndoStep(crc: bv16): bv16 {
    if crc & 1 != 0 then ((crc ^ 0x1021) >> 1) | 0x8000 else crc >> 1
  }

  lemma HighUndone(a: bv16)
    requires High(a)
    ensures UndoStep(BitStep(a)) == a
  {
  }

  lemma LowUndone(a: bv16)
    requires !High(a)
    ensures UndoStep(BitStep(a)) == a
  {
  }

  lemma BitStepUndone(a: bv16)
    ensures UndoStep(BitStep(a)) == a
  {
    if High(a) {
      HighUndone(a);
    } else {
      LowUndone(a);
    }
  }

  lemma BitStepInjective(a: bv16, b: bv16)
    requires BitStep(a) == BitStep(b)
    ensures a == b
  {
    BitStepUndone(a);
    BitStepUndone(b);
  }

  ghost predicate Injective<T(!new)>(step: T -> T) {
    forall a, b :: step(a) == step(b) ==> a == b
  }

  lemma {:induction false} TimesInjective<T(!new)>(step: T -> T, a: T, b: T, n: nat)
    requires Injective(step) && Times(step, a, n) == Times(step, b, n)
    ensures a == b
  {
    if n > 0 {
      assert step(Times(step, a, n - 1)) == step(Times(step, b, n - 1));
      TimesInjective(step, a, b, n - 1);
    }
  }

  lemma StepInjective()
    ensures Injective(BitStep)
  {
    forall a, b | BitStep(a) == BitStep(b) ensures a == b {
      BitStepInjective(a, b);
    }
  }

  /** Equal registers after eight bits were equal before. */
  lemma ByteUndone(p: bv16, q: bv16)
    requires Times(BitStep, p, 8) == Times(BitStep, q, 8)
    ensures p == q
  {
    StepInjective();
    TimesInjective(BitStep, p, q, 8);
  }

  lemma MixInjective(a: bv16, b: bv16, x: bv8)
    requires Mix(a, x) == Mix(b, x)
    ensures a == b
  {
  }

  lemma ByteStepInjective(a: bv16, b: bv16, x: bv8)
    requires ByteStep(a, x) == ByteStep(b, x)
    ensures a == b
  {
    ByteUndone(Mix(a, x), Mix(b, x));
    MixInjective(a, b, x);
  }

  /** Different registers stay different under the same bytes. */
  lemma {:induction false} CrcFromInjective(a: bv16, b: bv16, s: seq<bv8>)
    requires CrcFrom(a, s) == CrcFrom(b, s)
    ensures a == b
  {
    if s != [] {
      ByteStepInjective(CrcFrom(a, s[..|s| - 1]), CrcFrom(b, s[..|s| - 1]), s[|s| - 1]);
      CrcFromInjective(a, b, s[..|s| - 1]);
    }
  }

  lemma {:induction false} CrcFromAppend(crc: bv16, s: seq<bv8>, t: seq<bv8>)
    ensures CrcFrom(crc, s + t) == CrcFrom(CrcFrom(crc, s), t)
    decreases |t|
  {
    if t == [] {
      assert s + t == s;
    } else {
      var last := |t| - 1;
      assert (s + t)[..|s + t| - 1] == s + t[..last];
      CrcFromAppend(crc, s, t[..last]);
    }
  }

  function Xor16(a: bv16, b: bv16): bv16 {
    a ^ b
  }

  lemma ShiftXor(a: bv16, b: bv16)
    ensures (a ^ b) << 1 == (a << 1) ^ (b << 1)
  {
  }

  lemma SubtractedBoth(x: bv16, y: bv16)
    ensures (x ^ 0x1021) ^ (y ^ 0x1021) == x ^ y
  {
  }

  lemma SubtractedLeft(x: bv16, y: bv16)
    ensures (x ^ 0x1021) ^ y == (x ^ y) ^ 0x1021
  {
  }

  lemma SubtractedRight(x: bv16, y: bv16)
    ensures x ^ (y ^ 0x1021) == (x ^ y) ^ 0x1021
  {
  }

  lemma BothHigh(a: bv16, b: bv16)
    requires High(a) && High(b)
    ensures BitStep(a ^ b) == BitStep(a) ^ BitStep(b)
  {
    ShiftXor(a, b);
    SubtractedBoth(a << 1, b << 1);
  }

  lemma LeftHigh(a: bv16, b: bv16)
    requires High(a) && !High(b)
    ensures BitStep(a ^ b) == BitStep(a) ^ BitStep(b)
  {
    ShiftXor(a, b);
    SubtractedLeft(a << 1, b << 1);
  }

  lemma RightHigh(a: bv16, b: bv16)
    requires !High(a) && High(b)
    ensures BitStep(a ^ b) == BitStep(a) ^ BitStep(b)
  {
    ShiftXor(a, b);
    SubtractedRight(a << 1, b << 1);
  }

  lemma NoneHigh(a: bv16, b: bv16)
    requires !High(a) && !High(b)
    ensures BitStep(a ^ b) == BitStep(a) ^ BitStep(b)
  {
    ShiftXor(a, b);
  }

  /** Shifting is linear over exclusive or. */
  lemma BitStepLinear(a: bv16, b: bv16)
    ensures BitStep(Xor16(a, b)) == Xor16(BitStep(a), BitStep(b))
  {
    if High(a) && High(b) {
      BothHigh(a, b);
    } else if High(a) {
      LeftHigh(a, b);
    } else if High(b) {
      RightHigh(a, b);
    } else {
      NoneHigh(a, b);
    }
  }

  ghost predicate Linear<T(!new)>(step: T -> T, op: (T, T) -> T) {
    forall a, b {:trigger op(a, b)} :: step(op(a, b)) == op(step(a), step(b))
  }

  lemma {:induction false} TimesLinear<T(!new)>(step: T -> T, op: (T, T) -> T, a: T, b: T, n: nat)
    requires Linear(step, op)
    ensures Times(step, op(a, b), n) == op(Times(step, a, n), Times(step, b, n))
  {
    if n > 0 {
      TimesLinear(step, op, a, b, n - 1);
      LinearAt(step, op, Times(step, a, n - 1), Times(step, b, n - 1));
    }
  }

  lemma LinearAt<T(!new)>(step: T -> T, op: (T, T) -> T, a: T, b: T)
    requires Linear(step, op)
    ensures step(op(a, b)) == op(step(a), step(b))
  {
  }

  lemma StepLinear()
    ensures Linear(BitStep, Xor16)
  {
    forall a, b ensures BitStep(Xor16(a, b)) == Xor16(BitStep(a), BitStep(b)) {
      BitStepLinear(a, b);
    }
  }

  function Eight(x: bv16): bv16 {
    BitStep(BitStep(BitStep(BitStep(BitStep(BitStep(BitStep(BitStep(x))))))))
  }

  lemma EightTimes<T>(step: T -> T, x: T)
    ensures Times(step, x, 8) == step(step(step(step(step(step(step(step(x))))))))
  {
    assert Times(step, x, 1) == step(x);
    assert Times(step, x, 2) == step(step(x));
    assert Times(step, x, 4) == step(step(Times(step, x, 2)));
    assert Times(step, x, 6) == step(step(Times(step, x, 4)));
  }

  /** A difference in one byte leaves a difference in the register's low byte. */
  lemma LowByteDiffers(d: bv8)
    requires Eight(d as bv16 << 8) & 0xFF == 0
    ensures d == 0
  {
  }

  lemma LowByteOfTimes(d: bv8, w: bv16, r: bv16)
    requires w == d as bv16 << 8 && r == Times(BitStep, w, 8) && r & 0xFF == 0
    ensures d == 0
  {
    EightTimes(BitStep, w);
    LowByteDiffers(d);
  }

  lemma MixSameLow(a: bv16, b: bv16, x: bv8, y: bv8)
    requires Mix(a, x) == Mix(b, y)
    ensures (a ^ b) & 0xFF == 0
  {
  }

  lemma MixDifference(crc: bv16, x: bv8, y: bv8)
    ensures Mix(crc, x) ^ Mix(crc, y) == (x ^ y) as bv16 << 8
  {
  }

  lemma SameByte(x: bv8, y: bv8)
    requires x ^ y == 0
    ensures x == y
  {
  }

  lemma MixSame(crc: bv16, x: bv8, y: bv8)
    requires Mix(crc, x) == Mix(crc, y)
    ensures x == y
  {
  }

  /** The registers after one byte each, when they differ only above the low byte. */
  lemma FirstByteSame(crc: bv16, x: bv8, y: bv8)
    requires Xor16(Times(BitStep, Mix(crc, x), 8), Times(BitStep, Mix(crc, y), 8)) & 0xFF == 0
    ensures x == y
  {
    var p, q := Mix(crc, x), Mix(crc, y);
    var w := Xor16(p, q);
    StepLinear();
    TimesLinear(BitStep, Xor16, p, q, 8);
    MixDifference(crc, x, y);
    LowByteOfTimes(x ^ y, w, Times(BitStep, w, 8));
    SameByte(x, y);
  }

  lemma OneByteInjective(crc: bv16, x: bv8, y: bv8)
    requires ByteStep(crc, x) == ByteStep(crc, y)
    ensures x == y
  {
    ByteUndone(Mix(crc, x), Mix(crc, y));
    MixSame(crc, x, y);
  }

  /** Two bytes into the same register: the result determines both. */
  lemma TwoBytesInjective(crc: bv16, x0: bv8, x1: bv8, y0: bv8, y1: bv8)
    requires ByteStep(ByteStep(crc, x0), x1) == ByteStep(ByteStep(crc, y0), y1)
    ensures x0 == y0 && x1 == y1
  {
    var a, b := ByteStep(crc, x0), ByteStep(crc, y0);
    ByteUndone(Mix(a, x1), Mix(b, y1));
    MixSameLow(a, b, x1, y1);
    FirstByteSame(crc, x0, y0);
    OneByteInjective(a, x1, y1);
  }

  /** A change of any two adjacent bytes, or of one, changes the checksum. */
  lemma BurstDetected(before: seq<bv8>, x0: bv8, x1: bv8, y0: bv8, y1: bv8, after: seq<bv8>)
    requires x0 != y0 || x1 != y1
    ensures Crc(before + [x0, x1] + after) != Crc(before + [y0, y1] + after)
  {
    var c := Crc(before);
    CrcFromAppend(0xFFFF, before + [x0, x1], after);
    CrcFromAppend(0xFFFF, before, [x0, x1]);
    CrcFromAppend(0xFFFF, before + [y0, y1], after);
    CrcFromAppend(0xFFFF, before, [y0, y1]);
    TwoSteps(c, x0, x1);
    TwoSteps(c, y0, y1);
    if Crc(before + [x0, x1] + after) == Crc(before + [y0, y1] + after) {
      CrcFromInjective(CrcFrom(c, [x0, x1]), CrcFrom(c, [y0, y1]), after);
      TwoBytesInjective(c, x0, x1, y0, y1);
    }
  }

  lemma TwoSteps(crc: bv16, x: bv8, y: bv8)
    ensures CrcFrom(crc, [x, y]) == ByteStep(ByteStep(crc, x), y)
  {
    assert [x, y][..1] == [x];
    assert [x][..0] == [];
    assert CrcFrom(crc, [x]) == ByteStep(crc, x);
  }

  /** Any two strings of one length that differ in exactly one byte. */
  lemma OneByteDetected(s: seq<bv8>, t: seq<bv8>, k: nat)
    requires |s| == |t| && k < |s| && s[k] != t[k]
    requires forall i :: 0 <= i < |s| && i != k ==> s[i] == t[i]
    ensures Crc(s) != Crc(t)
  {
    var before, after := s[..k], s[k + 1..];
    assert s == before + [s[k]] + after && t == before + [t[k]] + after;
    var c := Crc(before);
    CrcFromAppend(0xFFFF, before + [s[k]], after);
    CrcFromAppend(0xFFFF, before + [t[k]], after);
    assert (before + [s[k]])[..k] == before && (before + [t[k]])[..k] == before;
    if Crc(s) == Crc(t) {
      CrcFromInjective(ByteStep(c, s[k]), ByteStep(c, t[k]), after);
      OneByteInjective(c, s[k], t[k]);
    }
  }
}
