/** Bytes, fixed-width unsigned integers and the big-endian codecs of Go's
    encoding/binary.  A byte is an integer in [0, 256): the masks and shifts of
    the wire code become remainders and quotients by powers of two. */
module Bytes {

  type byte = x: int | 0 <= x < 256

  type uint16 = x: int | 0 <= x < 0x1_0000

  type uint32 = x: int | 0 <= x < 0x1_0000_0000

  const TWO16: nat := 0x1_0000
  const TWO32: nat := 0x1_0000_0000
  const TWO48: nat := 0x1_0000_0000_0000

  /** binary.BigEndian.PutUint16 */
  function BE16(n: nat): (s: seq<byte>)
    ensures |s| == 2
  {
    [n / 256 % 256, n % 256]
  }

  /** binary.BigEndian.PutUint32 */
  function BE32(n: nat): (s: seq<byte>)
    ensures |s| == 4
  {
    BE16(n / TWO16) + BE16(n % TWO16)
  }

  /** binary.BigEndian.Uint16 */
  function U16(s: seq<byte>): (n: uint16)
    requires |s| >= 2
  {
    256 * (s[0] as int) + s[1]
  }

  /** binary.BigEndian.Uint32 */
  function U32(s: seq<byte>): (n: uint32)
    requires |s| >= 4
  {
    TWO16 * U16(s) + U16(s[2..])
  }

  lemma U16OfBE16(n: nat, rest: seq<byte>)
    ensures U16(BE16(n) + rest) == n % TWO16
  {
  }

  lemma U32OfBE32(n: uint32, rest: seq<byte>)
    ensures U32(BE32(n) + rest) == n
  {
    var s := BE32(n) + rest;
    assert s == BE16(n / TWO16) + (BE16(n % TWO16) + rest);
    assert s[2..] == BE16(n % TWO16) + rest;
    U16OfBE16(n / TWO16, BE16(n % TWO16) + rest);
    U16OfBE16(n % TWO16, rest);
  }

  function Zeros(n: nat): (s: seq<byte>)
    ensures |s| == n
    ensures forall k :: 0 <= k < n ==> s[k] == 0
  {
    seq(n, _ => 0)
  }

  lemma Assoc<T>(a: seq<T>, b: seq<T>, c: seq<T>)
    ensures a + (b + c) == a + b + c
  {
  }

  lemma NilLeft<T>(a: seq<T>)
    ensures [] + a == a
  {
  }

  lemma NilRight<T>(a: seq<T>)
    ensures a + [] == a
  {
  }

  /** Concatenation of a list of byte strings. */
  function Concat(parts: seq<seq<byte>>): seq<byte> {
    if parts == [] then [] else parts[0] + Concat(parts[1..])
  }

  lemma {:induction false} ConcatAppend(a: seq<seq<byte>>, b: seq<seq<byte>>)
    ensures Concat(a + b) == Concat(a) + Concat(b)
  {
    if a == [] {
      assert a + b == b;
    } else {
      assert (a + b)[1..] == a[1..] + b;
      ConcatAppend(a[1..], b);
    }
  }

  function Pow2(k: nat): (p: nat)
    ensures p >= 1
  {
    if k == 0 then 1 else 2 * Pow2(k - 1)
  }

  /** Exclusive or of the low `k` bits of `a` and `b`, least significant first. */
  function XorBits(a: nat, b: nat, k: nat): (c: nat)
    ensures c < Pow2(k)
  {
    if k == 0 then 0 else (a + b) % 2 + 2 * XorBits(a / 2, b / 2, k - 1)
  }

  /** The byte operator `a ^ b`. */
  function Xor(a: byte, b: byte): (c: byte) {
    assert Pow2(8) == 256 by { assert Pow2(4) == 16; }
    XorBits(a, b, 8)
  }

  lemma LowBit(a: nat, b: nat, c: nat)
    ensures var x := (b + a) % 2 + 2 * c; x / 2 == c && (b + x) % 2 == a % 2
  {
    var r, s := a % 2, b % 2;
    assert a == 2 * (a / 2) + r && b == 2 * (b / 2) + s;
    assert (b + a) % 2 == (r + s) % 2;
    var x := (r + s) % 2 + 2 * c;
    assert (b + x) % 2 == (s + (r + s) % 2) % 2;
  }

  lemma {:induction false} XorBitsCancel(a: nat, b: nat, k: nat)
    requires a < Pow2(k)
    ensures XorBits(b, XorBits(b, a, k), k) == a
  {
    if k > 0 {
      var c := XorBits(b / 2, a / 2, k - 1);
      LowBit(a, b, c);
      XorBitsCancel(a / 2, b / 2, k - 1);
    }
  }

  /** Applying the same mask twice gives back the byte. */
  lemma XorCancel(a: byte, b: byte)
    ensures Xor(b, Xor(b, a)) == a
  {
    assert Pow2(8) == 256 by { assert Pow2(4) == 16; }
    XorBitsCancel(a, b, 8);
  }

  lemma XorInjective(a: byte, b: byte, mask: byte)
    requires Xor(mask, a) == Xor(mask, b)
    ensures a == b
  {
    XorCancel(a, mask);
    XorCancel(b, mask);
  }
}
