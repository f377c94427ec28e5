/** Whole runs of an SRTP sender and receiver: rollover tracking over lossy in-order
    delivery, and the counter blocks a sender uses
    (internal/voip/media/srtp.go:72-159). */
module SrtpRuns {
  import opened Bytes
  import opened Wrappers
  import opened Rtp
  import opened Srtp

  // ------------------------------------------------------------------
  // Rollover tracking
  // ------------------------------------------------------------------

  /** The state that has tracked a stream up to its packet number `i`, counted
      without wrapping from the sender's first block of sequence numbers. */
  function RollAt(i: nat): Roll {
    Roll(i / TWO16 % TWO32, i % TWO16, true)
  }

  /** The steps updateRoc can follow: within a block of 65536 sequence numbers, or
      into the next one by at most 32767. */
  predicate Follows(i: nat, j: nat) {
    i / TWO16 == j / TWO16 || (i / TWO16 + 1 == j / TWO16 && j - i <= 32767)
  }

  lemma GapFollows(i: nat, j: nat)
    requires i < j <= i + 32767
    ensures Follows(i, j)
  {
  }

  /** From a state in step with packet `i`, packet `j` keeps the receiver in step
      exactly when it can be followed. */
  lemma UpdateTracks(i: nat, j: nat)
    requires i < j
    ensures Follows(i, j) ==> UpdateRoc(RollAt(i), j % TWO16) == RollAt(j)
    ensures j < TWO48 && !Follows(i, j) ==> UpdateRoc(RollAt(i), j % TWO16).roc != RollAt(j).roc
  {
    var a, b, x, y := i / TWO16, j / TWO16, i % TWO16, j % TWO16;
    assert i == a * TWO16 + x && j == b * TWO16 + y;
    if b == a + 1 {
      assert j - i == TWO16 + y - x;
      NextBlock(a);
    } else if b > a + 1 && j < TWO48 {
      assert a % TWO32 == a && b % TWO32 == b;
      NextBlock(a);
    }
  }

  lemma NextBlock(a: nat)
    ensures (a % TWO32 + 1) % TWO32 == (a + 1) % TWO32
  {
  }

  // ------------------------------------------------------------------
  // Delivery
  // ------------------------------------------------------------------

  /** The packets of one session: consecutive sequence numbers from `seq0`, headers
      the wire can carry, no empty payload. */
  ghost predicate SessionPackets(seq0: uint16, pkts: seq<RtpPacket>) {
    forall i :: 0 <= i < |pkts| ==>
      && pkts[i].header.sequenceNumber == (seq0 + i) % TWO16
      && |pkts[i].header.csrc| == pkts[i].header.csrcCount && Wire(pkts[i].header) && pkts[i].payload != []
  }

  /** Packet `i` as a fresh sending context puts it on the wire. */
  function Sent(p: Prims, k: Keys, seq0: uint16, pkts: seq<RtpPacket>, i: nat): seq<byte>
    requires |k.sessionSalt| == SALT_LEN && i < |pkts|
  {
    Seal(p, k, RollRun(FRESH, seq0, i + 1).roc, pkts[i])
  }

  /** The sender's rollover count is the number of wraps so far. */
  lemma {:induction false} SenderTracks(seq0: uint16, n: nat)
    ensures RollRun(FRESH, seq0, n + 1) == RollAt(seq0 + n)
  {
    if n > 0 {
      SenderTracks(seq0, n - 1);
      GapFollows(seq0 + n - 1, seq0 + n);
      UpdateTracks(seq0 + n - 1, seq0 + n);
    }
  }

  /** The packets that arrive, in order: the first before the sender's sequence
      numbers first wrap, each next one within reach of updateRoc. */
  ghost predicate Arrivals(seq0: uint16, n: nat, got: seq<nat>) {
    && (forall m :: 0 <= m < |got| ==> got[m] < n)
    && (got != [] ==> seq0 + got[0] < TWO16)
    && (forall m :: 0 <= m < |got| - 1 ==> got[m] < got[m + 1] && Follows(seq0 + got[m], seq0 + got[m + 1]))
  }

  /** A fresh receiver after the first `m` arrivals. */
  function ReceiverRoll(seq0: uint16, got: seq<nat>, m: nat): Roll
    requires m <= |got|
  {
    if m == 0 then FRESH else UpdateRoc(ReceiverRoll(seq0, got, m - 1), (seq0 + got[m - 1]) % TWO16)
  }

  lemma {:induction false} ReceiverTracks(seq0: uint16, n: nat, got: seq<nat>, m: nat)
    requires Arrivals(seq0, n, got) && m < |got|
    ensures ReceiverRoll(seq0, got, m + 1) == RollAt(seq0 + got[m])
  {
    if m > 0 {
      ReceiverTracks(seq0, n, got, m - 1);
      UpdateTracks(seq0 + got[m - 1], seq0 + got[m]);
    }
  }

  /** The receiver computes the sender's 48-bit index on every arrival. */
  ghost predicate Tracked(seq0: uint16, got: seq<nat>) {
    forall m :: 0 <= m < |got| ==>
      PacketIndex(ReceiverRoll(seq0, got, m + 1).roc, (seq0 + got[m]) % TWO16) == seq0 + got[m]
  }

  lemma IndexAt(roc: uint32, i: nat)
    requires i < TWO48
    ensures PacketIndex(roc, i % TWO16) == i <==> roc == RollAt(i).roc
  {
    assert i == i / TWO16 * TWO16 + i % TWO16 && i / TWO16 < TWO32;
  }

  lemma TrackedFollows(seq0: uint16, got: seq<nat>, m: nat)
    requires Tracked(seq0, got) && m + 1 < |got|
    requires got[m] < got[m + 1] && seq0 + got[m + 1] < TWO48
    ensures Follows(seq0 + got[m], seq0 + got[m + 1])
  {
    var i, j := seq0 + got[m], seq0 + got[m + 1];
    IndexAt(ReceiverRoll(seq0, got, m + 1).roc, i);
    assert ReceiverRoll(seq0, got, m + 1) == RollAt(i);
    IndexAt(ReceiverRoll(seq0, got, m + 2).roc, j);
    UpdateTracks(i, j);
  }

  /** Before the 48-bit index is used up, a fresh receiver computes the sender's
      index on every packet of an in-order subsequence if and only if the first
      arrives before the sender's sequence numbers first wrap and each next one can
      be followed, however many wraps lie in between. */
  lemma TrackedIff(seq0: uint16, n: nat, got: seq<nat>)
    requires seq0 + n <= TWO48
    requires forall m :: 0 <= m < |got| ==> got[m] < n
    requires forall m :: 0 <= m < |got| - 1 ==> got[m] < got[m + 1]
    ensures Tracked(seq0, got) <==> Arrivals(seq0, n, got)
  {
    if Tracked(seq0, got) && got != [] {
      assert ReceiverRoll(seq0, got, 1).roc == 0;
      IndexAt(0, seq0 + got[0]);
      forall m | 0 <= m < |got| - 1 ensures Follows(seq0 + got[m], seq0 + got[m + 1]) {
        TrackedFollows(seq0, got, m);
      }
    }
    if Arrivals(seq0, n, got) {
      forall m | 0 <= m < |got|
        ensures PacketIndex(ReceiverRoll(seq0, got, m + 1).roc, (seq0 + got[m]) % TWO16) == seq0 + got[m]
      {
        ReceiverTracks(seq0, n, got, m);
        IndexAt(ReceiverRoll(seq0, got, m + 1).roc, seq0 + got[m]);
      }
    }
  }

  /** Packets lost but not reordered: the receiver unprotects every packet that
      arrives to exactly the header and payload that were protected, and moves on
      to the state from which it will do the same with the next. */
  lemma LossyDelivery(p: Prims, k: Keys, seq0: uint16, pkts: seq<RtpPacket>, got: seq<nat>, m: nat)
    requires |k.sessionSalt| == SALT_LEN && SessionPackets(seq0, pkts)
    requires Arrivals(seq0, |pkts|, got) && m < |got|
    ensures UnprotectStep(p, k, ReceiverRoll(seq0, got, m), Sent(p, k, seq0, pkts, got[m]))
         == Unprotected(ReceiverRoll(seq0, got, m + 1), Ok(pkts[got[m]]))
  {
    ReceiverTracks(seq0, |pkts|, got, m);
    SenderTracks(seq0, got[m]);
    UnprotectSeal(p, k, ReceiverRoll(seq0, got, m), RollRun(FRESH, seq0, got[m] + 1).roc, pkts[got[m]]);
  }

  // ------------------------------------------------------------------
  // Counter blocks
  // ------------------------------------------------------------------

  function Pow256(n: nat): (m: nat)
    ensures m >= 1
  {
    if n == 0 then 1 else 256 * Pow256(n - 1)
  }

  lemma {:induction false} BigEndianBound(s: seq<byte>)
    ensures BigEndian(s) < Pow256(|s|)
  {
    if s != [] {
      BigEndianBound(s[..|s| - 1]);
    }
  }

  lemma {:induction false} BigEndianInjective(a: seq<byte>, b: seq<byte>)
    requires |a| == |b| && BigEndian(a) == BigEndian(b)
    ensures a == b
  {
    if a != [] {
      var n := |a| - 1;
      BigEndianInjective(a[..n], b[..n]);
      assert a == a[..n] + [a[n]] && b == b[..n] + [b[n]];
    }
  }

  lemma BE16Injective(i: nat, j: nat)
    requires i < TWO16 && j < TWO16 && BE16(i) == BE16(j)
    ensures i == j
  {
    NilRight(BE16(i));
    U16OfBE16(i, []);
    U16OfBE16(j, []);
  }

  lemma BE32Injective(i: uint32, j: uint32)
    requires BE32(i) == BE32(j)
    ensures i == j
  {
    NilRight(BE32(i));
    U32OfBE32(i, []);
    U32OfBE32(j, []);
  }

  lemma BE48Injective(i: nat, j: nat)
    requires i < TWO48 && j < TWO48 && BE48(i) == BE48(j)
    ensures i == j
  {
    assert BE48(i)[..2] == BE16(i / TWO32) && BE48(j)[..2] == BE16(j / TWO32);
    assert BE48(i)[2..] == BE32(i % TWO32) && BE48(j)[2..] == BE32(j % TWO32);
    BE16Injective(i / TWO32, j / TWO32);
    BE32Injective(i % TWO32, j % TWO32);
  }

  lemma XorSeqInjective(salt: seq<byte>, a: seq<byte>, b: seq<byte>)
    requires |salt| == |a| == |b| && XorSeq(salt, a) == XorSeq(salt, b)
    ensures a == b
  {
    forall k | 0 <= k < |a| ensures a[k] == b[k] {
      assert XorSeq(salt, a)[k] == XorSeq(salt, b)[k];
      XorInjective(a[k], b[k], salt[k]);
    }
  }

  /** generateIV is injective in the SSRC and the 48-bit index, already in its first
      14 bytes. */
  lemma IVInjective(salt: seq<byte>, ssrc: uint32, i: nat, ssrc': uint32, j: nat)
    requires |salt| == SALT_LEN && i < TWO48 && j < TWO48
    requires IV(salt, ssrc, i)[..14] == IV(salt, ssrc', j)[..14]
    ensures ssrc == ssrc' && i == j
  {
    var a, b := IV(salt, ssrc, i)[..14], IV(salt, ssrc', j)[..14];
    assert a[4..8] == XorSeq(salt[4..8], BE32(ssrc)) && b[4..8] == XorSeq(salt[4..8], BE32(ssrc'));
    XorSeqInjective(salt[4..8], BE32(ssrc), BE32(ssrc'));
    BE32Injective(ssrc, ssrc');
    assert a[8..] == XorSeq(salt[8..], BE48(i)) && b[8..] == XorSeq(salt[8..], BE48(j));
    XorSeqInjective(salt[8..], BE48(i), BE48(j));
    BE48Injective(i, j);
  }

  const MAX_PAYLOAD: nat := 0x10_0000

  /** The low 16 bits of an IV are zero, so the block counter of a payload of up to
      2^20 bytes stays inside them. */
  lemma CounterForm(iv: seq<byte>, j: nat)
    requires |iv| == 16 && iv[14] == 0 && iv[15] == 0 && j < MAX_PAYLOAD
    ensures Counter(iv, j) == BigEndian(iv[..14]) * TWO16 + j / 16
    ensures Counter(iv, j) / TWO16 == BigEndian(iv[..14])
  {
    assert iv[..15][..14] == iv[..14];
    assert BigEndian(iv) == 256 * BigEndian(iv[..15]);
    assert BigEndian(iv[..15]) == 256 * BigEndian(iv[..14]);
    BigEndianBound(iv[..14]);
    assert Pow256(14) == 256 * (256 * (256 * (256 * Pow256(10))));
    assert Pow256(10) == 256 * (256 * (256 * (256 * Pow256(6))));
    assert Pow256(6) == 256 * (256 * (256 * (256 * Pow256(2))));
    assert Pow256(2) == TWO16;
  }

  /** Different streams, or different indexes of one, never share a counter block. */
  lemma DisjointCounters(salt: seq<byte>, ssrc: uint32, i: nat, a: nat, ssrc': uint32, j: nat, b: nat)
    requires |salt| == SALT_LEN && i < TWO48 && j < TWO48 && (ssrc != ssrc' || i != j)
    requires a < MAX_PAYLOAD && b < MAX_PAYLOAD
    ensures Counter(IV(salt, ssrc, i), a) != Counter(IV(salt, ssrc', j), b)
  {
    var iv, iw := IV(salt, ssrc, i), IV(salt, ssrc', j);
    CounterForm(iv, a);
    CounterForm(iw, b);
    if BigEndian(iv[..14]) == BigEndian(iw[..14]) {
      BigEndianInjective(iv[..14], iw[..14]);
      IVInjective(salt, ssrc, i, ssrc', j);
    }
  }

  /** The index strictly follows the packet count until 48 bits are used up. */
  lemma SenderIndex(seq0: uint16, i: nat)
    requires seq0 + i < TWO48
    ensures PacketIndex(RollRun(FRESH, seq0, i + 1).roc, (seq0 + i) % TWO16) == seq0 + i
  {
    SenderTracks(seq0, i);
    IndexAt(RollRun(FRESH, seq0, i + 1).roc, seq0 + i);
  }

  /** One sending context, one SSRC: until the 48-bit index is used up, no two
      packets have a byte encrypted by the same counter block. */
  lemma NoKeystreamReuse(k: Keys, seq0: uint16, ssrc: uint32, i: nat, j: nat, a: nat, b: nat)
    requires |k.sessionSalt| == SALT_LEN && i < j && seq0 + j < TWO48
    requires a < MAX_PAYLOAD && b < MAX_PAYLOAD
    ensures var x := PacketIndex(RollRun(FRESH, seq0, i + 1).roc, (seq0 + i) % TWO16);
            var y := PacketIndex(RollRun(FRESH, seq0, j + 1).roc, (seq0 + j) % TWO16);
            && x < y
            && Counter(IV(k.sessionSalt, ssrc, x), a) != Counter(IV(k.sessionSalt, ssrc, y), b)
  {
    SenderIndex(seq0, i);
    SenderIndex(seq0, j);
    DisjointCounters(k.sessionSalt, ssrc, seq0 + i, a, ssrc, seq0 + j, b);
  }

  /** Two sending contexts with the same keys, as audio and video have
      (internal/voip/call/callmanager_srtp.go:46-49): while their SSRCs differ, no packet
      of one shares a counter block with any packet of the other. */
  lemma StreamsDisjoint(k: Keys, ssrc: uint32, seq0: uint16, i: nat, a: nat, ssrc': uint32, seq0': uint16, j: nat, b: nat)
    requires |k.sessionSalt| == SALT_LEN && ssrc != ssrc'
    requires a < MAX_PAYLOAD && b < MAX_PAYLOAD
    ensures var x := PacketIndex(RollRun(FRESH, seq0, i + 1).roc, (seq0 + i) % TWO16);
            var y := PacketIndex(RollRun(FRESH, seq0', j + 1).roc, (seq0' + j) % TWO16);
            Counter(IV(k.sessionSalt, ssrc, x), a) != Counter(IV(k.sessionSalt, ssrc', y), b)
  {
    DisjointCounters(k.sessionSalt, ssrc, PacketIndex(RollRun(FRESH, seq0, i + 1).roc, (seq0 + i) % TWO16), a,
                     ssrc', PacketIndex(RollRun(FRESH, seq0', j + 1).roc, (seq0' + j) % TWO16), b);
  }
}
