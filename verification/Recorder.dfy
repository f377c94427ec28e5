/** The call recorder: both sides' frames placed on one timeline and mixed into one
    track (cmd/server/recorder.go).  Samples are real numbers. */
module Recorder {

  import opened Clock

  type Pcm = seq<real>

  const SAMPLE_RATE: nat := 16000
  const MAX_SAMPLES: nat := SAMPLE_RATE * 60 * 60
  const RESYNC_SAMPLES: int := SAMPLE_RATE * 3 / 10

  datatype Side = Peer | Browser

  /** A captured frame, with the nanoseconds from the start to its arrival. */
  datatype Frame = Frame(side: Side, at: nat, pcm: Pcm)

  // ------------------------------------------------------------------
  // Mixing
  // ------------------------------------------------------------------

  function Clamp(v: real): (c: real)
    ensures -1.0 <= c <= 1.0
  {
    if v > 1.0 then 1.0 else if v < -1.0 then -1.0 else v
  }

  /** What is in range stays, and the rest goes to the end it is beyond. */
  lemma ClampIs(v: real)
    ensures -1.0 <= v <= 1.0 ==> Clamp(v) == v
    ensures v > 1.0 ==> Clamp(v) == 1.0
    ensures v < -1.0 ==> Clamp(v) == -1.0
  {
  }

  /** A sample of the track: silence past its end. */
  function Sample(buf: Pcm, k: nat): real {
    if k < |buf| then buf[k] else 0.0
  }

  /** Where a frame placed at `start` ends in the track. */
  function Reach(start: nat, pcm: Pcm): nat {
    if start >= MAX_SAMPLES then 0
    else if start + |pcm| > MAX_SAMPLES then MAX_SAMPLES
    else start + |pcm|
  }

  function MixLength(buf: Pcm, start: nat, pcm: Pcm): nat {
    if Reach(start, pcm) > |buf| then Reach(start, pcm) else |buf|
  }

  /** The frame is added where it covers the track, and the sum is clamped. */
  function MixSample(buf: Pcm, start: nat, pcm: Pcm, k: nat): real {
    if start <= k < start + |pcm| && k < MAX_SAMPLES then Clamp(Sample(buf, k) + pcm[k - start]) else Sample(buf, k)
  }

  function Mix(buf: Pcm, start: nat, pcm: Pcm): (mixed: Pcm)
    ensures |mixed| == MixLength(buf, start, pcm)
  {
    seq(MixLength(buf, start, pcm), k requires 0 <= k => MixSample(buf, start, pcm, k))
  }

  method MixFrameInto(buf: Pcm, startIdx: int, pcm: Pcm) returns (mixed: Pcm)
    ensures mixed == Mix(buf, if startIdx < 0 then 0 else startIdx, pcm)
  {
    var start := if startIdx < 0 then 0 else startIdx;
    if start >= MAX_SAMPLES {
      assert buf == Mix(buf, start, pcm);
      return buf;
    }
    var end := start + |pcm|;
    var cut := pcm;
    if end > MAX_SAMPLES {
      end := MAX_SAMPLES;
      cut := pcm[..end - start];
    }
    mixed := buf;
    if end > |buf| {
      mixed := buf + seq(end - |buf|, _ => 0.0);
    }
    for i := 0 to |cut|
      invariant |mixed| == MixLength(buf, start, pcm)
      invariant forall k :: 0 <= k < |mixed| ==>
        mixed[k] == if start <= k < start + i then Clamp(Sample(buf, k) + cut[k - start]) else Sample(buf, k)
    {
      var v := mixed[start + i] + cut[i];
      if v > 1.0 {
        v := 1.0;
      } else if v < -1.0 {
        v := -1.0;
      }
      mixed := mixed[start + i := v];
    }
  }

  // ------------------------------------------------------------------
  // Placing
  // ------------------------------------------------------------------

  /** How far a side's audio has been placed, once it has been. */
  datatype Cursor = Cursor(isSet: bool, pos: nat)

  datatype Track = Track(peer: Cursor, browser: Cursor, offsetSet: bool, offset: nat, mixed: Pcm)

  const EMPTY: Track := Track(Cursor(false, 0), Cursor(false, 0), false, 0, [])

  function CursorOf(t: Track, side: Side): Cursor {
    if side == Peer then t.peer else t.browser
  }

  /** The sample at which the frame starts by the clock: it arrives with its end. */
  function Wall(f: Frame): nat {
    var wall := f.at * SAMPLE_RATE / SECOND - |f.pcm|;
    if wall < 0 then 0 else wall
  }

  /** Spliced to its side's cursor, unless that is too far from the clock. */
  function IndexFor(c: Cursor, wall: nat): nat {
    if !c.isSet || wall - c.pos > RESYNC_SAMPLES || wall - c.pos < -RESYNC_SAMPLES then wall else c.pos
  }

  function Index(t: Track, f: Frame): nat {
    IndexFor(CursorOf(t, f.side), Wall(f))
  }

  /** The place of the frame in the mixed buffer, which starts at the first frame. */
  function Rel(t: Track, f: Frame): nat {
    var idx := Index(t, f);
    var offset := if t.offsetSet then t.offset else idx;
    if idx < offset then 0 else idx - offset
  }

  function Place(t: Track, f: Frame): Track {
    var c := Cursor(true, Index(t, f) + |f.pcm|);
    Track(if f.side == Peer then c else t.peer, if f.side == Browser then c else t.browser,
          true, if t.offsetSet then t.offset else Index(t, f), Mix(t.mixed, Rel(t, f), f.pcm))
  }

  class CallRecorder {
    var mixed: Pcm
    var cursors: seq<nat>
    var cursorSet: seq<bool>
    var offset: nat
    var offsetSet: bool

    ghost predicate Valid()
      reads this
    {
      |cursors| == 2 && |cursorSet| == 2
    }

    ghost function State(): Track
      requires Valid()
      reads this
    {
      Track(Cursor(cursorSet[0], cursors[0]), Cursor(cursorSet[1], cursors[1]), offsetSet, offset, mixed)
    }

    constructor ()
      ensures Valid() && State() == EMPTY
    {
      mixed, cursors, cursorSet, offset, offsetSet := [], [0, 0], [false, false], 0, false;
    }

    method PlaceFrame(f: Frame)
      requires Valid()
      modifies this
      ensures Valid() && State() == Place(old(State()), f)
    {
      var wall := f.at * SAMPLE_RATE / SECOND - |f.pcm|;
      if wall < 0 {
        wall := 0;
      }
      var side := if f.side == Peer then 0 else 1;
      var idx := cursors[side];
      var drift := wall - idx;
      if !cursorSet[side] || drift > RESYNC_SAMPLES || drift < -RESYNC_SAMPLES {
        idx := wall;
        cursorSet := cursorSet[side := true];
      }
      assert idx == Index(old(State()), f);
      cursors := cursors[side := idx + |f.pcm|];
      if !offsetSet {
        offset := idx;
        offsetSet := true;
      }
      var rel := idx - offset;
      if rel < 0 {
        rel := 0;
      }
      mixed := MixFrameInto(mixed, rel, f.pcm);
    }
  }

  // ------------------------------------------------------------------
  // The mixed track, sample by sample
  // ------------------------------------------------------------------

  /** The recorder after its first `n` frames. */
  function After(fs: seq<Frame>, n: nat): Track
    requires n <= |fs|
  {
    if n == 0 then EMPTY else Place(After(fs, n - 1), fs[n - 1])
  }

  function IndexOf(fs: seq<Frame>, i: nat): nat
    requires i < |fs|
  {
    Index(After(fs, i), fs[i])
  }

  function RelOf(fs: seq<Frame>, i: nat): nat
    requires i < |fs|
  {
    Rel(After(fs, i), fs[i])
  }

  /** Sample `k` as the sum, clamped after each addition and in order of arrival, of
      all frames that cover it. */
  function SumAt(fs: seq<Frame>, n: nat, k: nat): real
    requires n <= |fs|
  {
    if n == 0 then 0.0
    else
      var before := SumAt(fs, n - 1, k);
      var rel := RelOf(fs, n - 1);
      if rel <= k < rel + |fs[n - 1].pcm| && k < 57_600_000 then Clamp(before + fs[n - 1].pcm[k - rel]) else before
  }

  /** The track reaches the end of the frame that goes furthest, up to the limit. */
  function FurthestEnd(fs: seq<Frame>, n: nat): nat
    requires n <= |fs|
  {
    if n == 0 then 0
    else
      var before, end := FurthestEnd(fs, n - 1), RelOf(fs, n - 1) + |fs[n - 1].pcm|;
      if RelOf(fs, n - 1) >= 57_600_000 || end <= before then before else if end > 57_600_000 then 57_600_000 else end
  }

  lemma MixAt(buf: Pcm, start: nat, pcm: Pcm, k: nat)
    ensures Sample(Mix(buf, start, pcm), k) == MixSample(buf, start, pcm, k)
  {
  }

  lemma PlacedMix(fs: seq<Frame>, n: nat)
    requires 0 < n <= |fs|
    ensures After(fs, n).mixed == Mix(After(fs, n - 1).mixed, RelOf(fs, n - 1), fs[n - 1].pcm)
  {
  }

  lemma FurthestStep(fs: seq<Frame>, n: nat, before: nat, here: nat)
    requires 0 < n <= |fs| && before == FurthestEnd(fs, n - 1) <= MAX_SAMPLES && here == Reach(RelOf(fs, n - 1), fs[n - 1].pcm)
    ensures FurthestEnd(fs, n) == if here > before then here else before
  {
  }

  lemma SumStep(fs: seq<Frame>, n: nat, k: nat, buf: Pcm)
    requires 0 < n <= |fs| && Sample(buf, k) == SumAt(fs, n - 1, k)
    ensures SumAt(fs, n, k) == MixSample(buf, RelOf(fs, n - 1), fs[n - 1].pcm, k)
  {
  }

  lemma {:induction false} SampleIsSum(fs: seq<Frame>, n: nat, k: nat)
    requires n <= |fs|
    ensures Sample(After(fs, n).mixed, k) == SumAt(fs, n, k)
  {
    if n > 0 {
      SampleIsSum(fs, n - 1, k);
      PlacedMix(fs, n);
      MixAt(After(fs, n - 1).mixed, RelOf(fs, n - 1), fs[n - 1].pcm, k);
      SumStep(fs, n, k, After(fs, n - 1).mixed);
    }
  }

  lemma {:induction false} LengthIsFurthest(fs: seq<Frame>, n: nat)
    requires n <= |fs|
    ensures |After(fs, n).mixed| == FurthestEnd(fs, n)
  {
    if n > 0 {
      LengthIsFurthest(fs, n - 1);
      PlacedMix(fs, n);
      FurthestEndInRange(fs, n - 1);
      FurthestStep(fs, n, FurthestEnd(fs, n - 1), Reach(RelOf(fs, n - 1), fs[n - 1].pcm));
    }
  }

  /** Any frames: every sample of the track is the clamped sum of the frames that
      cover it, and the track is exactly as long as the furthest of them. */
  lemma MixedIsClampedSum(fs: seq<Frame>, n: nat, k: nat)
    requires n <= |fs|
    ensures Sample(After(fs, n).mixed, k) == SumAt(fs, n, k)
    ensures |After(fs, n).mixed| == FurthestEnd(fs, n)
  {
    SampleIsSum(fs, n, k);
    LengthIsFurthest(fs, n);
  }

  lemma {:induction false} SumInRange(fs: seq<Frame>, n: nat, k: nat)
    requires n <= |fs|
    ensures -1.0 <= SumAt(fs, n, k) <= 1.0
  {
    if n > 0 {
      SumInRange(fs, n - 1, k);
    }
  }

  lemma {:induction false} FurthestEndInRange(fs: seq<Frame>, n: nat)
    requires n <= |fs|
    ensures FurthestEnd(fs, n) <= MAX_SAMPLES
  {
    if n > 0 {
      FurthestEndInRange(fs, n - 1);
    }
  }

  /** Any frames: no sample leaves [-1, 1] and the track never exceeds its limit. */
  lemma {:induction false} TrackInRange(fs: seq<Frame>, n: nat)
    requires n <= |fs|
    ensures |After(fs, n).mixed| <= 16_000 * 3600
    ensures forall k :: 0 <= k < |After(fs, n).mixed| ==> -1.0 <= After(fs, n).mixed[k] <= 1.0
  {
    var mixed := After(fs, n).mixed;
    MixedIsClampedSum(fs, n, 0);
    FurthestEndInRange(fs, n);
    forall k | 0 <= k < |mixed| ensures -1.0 <= mixed[k] <= 1.0 {
      MixedIsClampedSum(fs, n, k);
      SumInRange(fs, n, k);
    }
  }

  // ------------------------------------------------------------------
  // The timeline
  // ------------------------------------------------------------------

  lemma {:induction false} OffsetIsFirst(fs: seq<Frame>, n: nat)
    requires 0 < n <= |fs|
    ensures After(fs, n).offsetSet && After(fs, n).offset == IndexOf(fs, 0)
  {
    assert After(fs, 0) == EMPTY;
    if n > 1 {
      OffsetIsFirst(fs, n - 1);
    }
  }

  lemma RelFromOffset(fs: seq<Frame>, i: nat)
    requires i < |fs|
    ensures RelOf(fs, i) == if IndexOf(fs, i) < IndexOf(fs, 0) then 0 else IndexOf(fs, i) - IndexOf(fs, 0)
  {
    assert After(fs, 0) == EMPTY;
    if i > 0 {
      OffsetIsFirst(fs, i);
    }
  }

  lemma PlacedCursors(fs: seq<Frame>, n: nat, side: Side)
    requires 0 < n <= |fs|
    ensures CursorOf(After(fs, n), side)
         == if fs[n - 1].side == side then Cursor(true, IndexOf(fs, n - 1) + |fs[n - 1].pcm|)
            else CursorOf(After(fs, n - 1), side)
  {
  }

  /** A side's cursor stays at the end of its latest frame. */
  lemma {:induction false} CursorStays(fs: seq<Frame>, i: nat, j: nat)
    requires i < j <= |fs|
    requires forall m :: i < m < j ==> fs[m].side != fs[i].side
    ensures CursorOf(After(fs, j), fs[i].side) == Cursor(true, IndexOf(fs, i) + |fs[i].pcm|)
    decreases j
  {
    PlacedCursors(fs, j, fs[i].side);
    if j > i + 1 {
      CursorStays(fs, i, j - 1);
    }
  }

  /** Frame `j` is the next one of frame `i`'s side. */
  ghost predicate NextOfSide(fs: seq<Frame>, i: nat, j: nat) {
    i < j < |fs| && fs[j].side == fs[i].side && forall m :: i < m < j ==> fs[m].side != fs[i].side
  }

  predicate WithinDrift(a: nat, b: nat) {
    -4800 <= a - b <= 4800
  }

  /** Any two successive frames of a side, whatever arrives between them.  On the
      timeline the second is spliced to the first, with no gap and no overlap, when its
      arrival is within the drift, and is put at its arrival otherwise; so every frame is
      within the drift of its arrival.  In the mixed buffer a spliced frame is spliced too
      if and only if the first of the two does not start before the recording. */
  lemma SplicedIff(fs: seq<Frame>, i: nat, j: nat)
    requires NextOfSide(fs, i, j)
    ensures var end := IndexOf(fs, i) + |fs[i].pcm|;
            && IndexOf(fs, j) == (if WithinDrift(Wall(fs[j]), end) then end else Wall(fs[j]))
            && WithinDrift(IndexOf(fs, j), Wall(fs[j]))
            && (WithinDrift(Wall(fs[j]), end) ==>
                  (RelOf(fs, j) == RelOf(fs, i) + |fs[i].pcm| <==> IndexOf(fs, i) >= IndexOf(fs, 0) || fs[i].pcm == []))
  {
    CursorStays(fs, i, j);
    RelFromOffset(fs, i);
    RelFromOffset(fs, j);
  }

  lemma {:induction false} FirstOfSide(fs: seq<Frame>, i: nat, n: nat)
    requires n <= i < |fs|
    requires forall m :: 0 <= m < n ==> fs[m].side != fs[i].side
    ensures !CursorOf(After(fs, n), fs[i].side).isSet
  {
    if n > 0 {
      FirstOfSide(fs, i, n - 1);
      PlacedCursors(fs, n, fs[i].side);
    }
  }

  /** A side's first frame is put at its arrival, sixteen samples to the millisecond, less
      its own length. */
  lemma FirstAtArrival(fs: seq<Frame>, i: nat)
    requires i < |fs| && forall m :: 0 <= m < i ==> fs[m].side != fs[i].side
    ensures var end := fs[i].at * 16_000 / 1_000_000_000;
            IndexOf(fs, i) == Wall(fs[i]) == if end < |fs[i].pcm| then 0 else end - |fs[i].pcm|
  {
    FirstOfSide(fs, i, i);
  }

  lemma {:induction false} CursorsNotBefore(fs: seq<Frame>, n: nat)
    requires n <= |fs| && forall m :: 0 <= m < n ==> Wall(fs[m]) >= Wall(fs[0])
    ensures forall side :: CursorOf(After(fs, n), side).isSet ==> CursorOf(After(fs, n), side).pos >= Wall(fs[0])
  {
    if n > 0 {
      CursorsNotBefore(fs, n - 1);
      PlacedCursors(fs, n, Peer);
      PlacedCursors(fs, n, Browser);
    }
  }

  /** When no frame's start lies before the first frame's, every frame within the drift is
      spliced in the mixed buffer. */
  lemma SplicedInMix(fs: seq<Frame>, i: nat, j: nat)
    requires NextOfSide(fs, i, j) && WithinDrift(Wall(fs[j]), IndexOf(fs, i) + |fs[i].pcm|)
    requires forall m :: 0 <= m <= i ==> Wall(fs[m]) >= Wall(fs[0])
    ensures RelOf(fs, j) == RelOf(fs, i) + |fs[i].pcm|
  {
    FirstAtArrival(fs, 0);
    CursorsNotBefore(fs, i);
    SplicedIff(fs, i, j);
  }

  /** Captured frames are never empty (cmd/server/recorder.go:111). */
  predicate Captured(fs: seq<Frame>) {
    forall i :: 0 <= i < |fs| ==> fs[i].pcm != []
  }

  /** In the track, frame `j` starts after frame `i` has ended. */
  predicate Apart(fs: seq<Frame>, i: nat, j: nat)
    requires i < |fs| && j < |fs|
  {
    RelOf(fs, j) >= RelOf(fs, i) + |fs[i].pcm|
  }

  /** When a frame arrives, where frame `i` of its side ended and where the recording
      starts tell whether it is put clear of it: it does not come so early that it is put
      back, and frame `i` does not start before the recording, unless the new one comes so
      late that it is put at its arrival, past the end of frame `i` in the track. */
  predicate Clear(fs: seq<Frame>, i: nat, wall: nat)
    requires i < |fs|
  {
    var end, off := IndexOf(fs, i) + |fs[i].pcm|, IndexOf(fs, 0);
    && wall >= end - 4800
    && (IndexOf(fs, i) >= off || (wall > end + 4800 && wall >= off + |fs[i].pcm|))
  }

  /** The next frame of a side overlaps the one before exactly when it is not clear of it. */
  lemma ApartIff(fs: seq<Frame>, i: nat, j: nat)
    requires NextOfSide(fs, i, j) && fs[i].pcm != []
    ensures Apart(fs, i, j) <==> Clear(fs, i, Wall(fs[j]))
  {
    SplicedIff(fs, i, j);
    RelFromOffset(fs, i);
    RelFromOffset(fs, j);
  }

  ghost predicate AllClear(fs: seq<Frame>) {
    forall i: nat, j: nat :: NextOfSide(fs, i, j) ==> Clear(fs, i, Wall(fs[j]))
  }

  lemma {:induction false} ApartWhileClear(fs: seq<Frame>, i: nat, j: nat)
    requires Captured(fs) && AllClear(fs) && i < j < |fs| && fs[i].side == fs[j].side
    ensures Apart(fs, i, j)
    decreases j - i
  {
    if m: nat :| i < m < j && fs[m].side == fs[i].side {
      ApartWhileClear(fs, i, m);
      ApartWhileClear(fs, m, j);
    } else {
      assert NextOfSide(fs, i, j);
      ApartIff(fs, i, j);
    }
  }

  ghost predicate NeverOverlaps(fs: seq<Frame>) {
    forall i: nat, j: nat :: i < j < |fs| && fs[i].side == fs[j].side ==> Apart(fs, i, j)
  }

  /** In a whole recording no side overlaps itself, whichever of its frames are compared,
      if and only if each of its frames was clear of the one before. */
  lemma NeverOverlapsIff(fs: seq<Frame>)
    requires Captured(fs)
    ensures NeverOverlaps(fs) <==> AllClear(fs)
  {
    if NeverOverlaps(fs) {
      forall i: nat, j: nat | NextOfSide(fs, i, j) ensures Clear(fs, i, Wall(fs[j])) {
        assert Apart(fs, i, j);
        ApartIff(fs, i, j);
      }
    }
    if AllClear(fs) {
      forall i: nat, j: nat | i < j < |fs| && fs[i].side == fs[j].side ensures Apart(fs, i, j) {
        ApartWhileClear(fs, i, j);
      }
    }
  }

  lemma {:induction false} BurstIndex(fs: seq<Frame>, k: nat)
    requires k < |fs| && k <= 16 && forall i :: 0 <= i < |fs| ==> fs[i].side == Peer && |fs[i].pcm| == 320 && fs[i].at == SECOND
    ensures IndexOf(fs, k) == 15680 + if k < 16 then 320 * k else 0
  {
    assert Wall(fs[k]) == 15680;
    if k == 0 {
      FirstAtArrival(fs, 0);
    } else {
      BurstIndex(fs, k - 1);
      SplicedIff(fs, k - 1, k);
    }
  }

  /** A side overlaps itself when a burst runs ahead of the clock: of seventeen 20 ms peer
      frames that arrive together, alone in the call, the last is put back on the first. */
  lemma BurstOverlaps() returns (fs: seq<Frame>)
    ensures |fs| == 17 && Captured(fs)
    ensures forall i :: 0 <= i < |fs| ==> fs[i].side == Peer && fs[i].at == SECOND && |fs[i].pcm| == 320
    ensures NextOfSide(fs, 15, 16) && RelOf(fs, 16) == RelOf(fs, 0) && !Apart(fs, 0, 16)
  {
    fs := seq(17, _ => Frame(Peer, SECOND, seq(320, _ => 0.5)));
    BurstIndex(fs, 0);
    BurstIndex(fs, 16);
    RelFromOffset(fs, 0);
    RelFromOffset(fs, 16);
  }

  /** And when its first frame starts before the recording: a 20 ms browser frame opens the recording, and
      a 60 ms peer frame that arrives with it began 40 ms earlier. */
  lemma OwnSideOverlaps() returns (fs: seq<Frame>)
    ensures NextOfSide(fs, 1, 2) && WithinDrift(Wall(fs[2]), IndexOf(fs, 1) + |fs[1].pcm|)
    ensures !Apart(fs, 1, 2)
  {
    var sound := seq(960, _ => 0.5);
    fs := [Frame(Browser, 1_000_000_000, sound[..320]), Frame(Peer, 1_000_000_000, sound), Frame(Peer, 1_060_000_000, sound)];
    FirstAtArrival(fs, 0);
    FirstAtArrival(fs, 1);
    assert Wall(fs[0]) == 15680 && Wall(fs[1]) == 15040 && Wall(fs[2]) == 16000;
    SplicedIff(fs, 1, 2);
    RelFromOffset(fs, 1);
    RelFromOffset(fs, 2);
  }
}
