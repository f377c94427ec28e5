/** The two ends of a call's audio: what the peer sends, put back on its timeline,
    and what the microphone gives, cut into frames
    (internal/voip/call/callmanager_media.go).  Samples are real numbers. */
module AudioTimeline {
  import opened Bytes
  import opened Division

  type Pcm = seq<real>

  function Silence(n: nat): (s: Pcm)
    ensures |s| == n
  {
    seq(n, _ => 0.0)
  }

  // ------------------------------------------------------------------
  // Aligning the peer's audio
  // ------------------------------------------------------------------

  const MAX_GAP_SAMPLES: nat := 8000

  /** audioTimelineSet, audioBaseTs and audioPlayedSamples. */
  datatype Timeline = Timeline(anchored: bool, baseTs: uint32, played: nat)

  const UNSET: Timeline := Timeline(false, 0, 0)

  datatype Aligned = Aligned(timeline: Timeline, pcm: Pcm)

  /** Where a timestamp lies after the anchor, as the 32-bit counter tells it. */
  function Target(t: Timeline, ts: uint32): nat {
    (ts - t.baseTs) % TWO32
  }

  /** The frame is taken as a new anchor: there is none, it lies before what has been
      played, or too far after it. */
  predicate Anchors(t: Timeline, ts: uint32) {
    !t.anchored || Target(t, ts) < t.played || Target(t, ts) - t.played > MAX_GAP_SAMPLES
  }

  function Align(t: Timeline, ts: uint32, pcm: Pcm): (a: Aligned) {
    if Anchors(t, ts) then Aligned(Timeline(true, ts, |pcm|), pcm)
    else Aligned(t.(played := Target(t, ts) + |pcm|), Silence(Target(t, ts) - t.played) + pcm)
  }

  class PeerAudio {
    var audioTimelineSet: bool
    var audioBaseTs: uint32
    var audioPlayedSamples: nat

    function State(): Timeline
      reads this
    {
      Timeline(audioTimelineSet, audioBaseTs, audioPlayedSamples)
    }

    constructor ()
      ensures State() == UNSET
    {
      audioTimelineSet, audioBaseTs, audioPlayedSamples := false, 0, 0;
    }

    method AlignPeerAudio(ts: uint32, pcm: Pcm) returns (out: Pcm)
      modifies this
      ensures Aligned(State(), out) == Align(old(State()), ts, pcm)
    {
      var origLen := |pcm|;
      if !audioTimelineSet {
        audioTimelineSet := true;
        audioBaseTs := ts;
        audioPlayedSamples := origLen;
        return pcm;
      }
      var target := (ts - audioBaseTs) % TWO32;
      var gap := target - audioPlayedSamples;
      if gap < 0 || gap > MAX_GAP_SAMPLES {
        audioBaseTs := ts;
        audioPlayedSamples := origLen;
        return pcm;
      }
      out := pcm;
      if gap > 0 {
        var padded := new real[gap + origLen](_ => 0.0);
        for k := 0 to origLen
          modifies padded
          invariant forall j :: 0 <= j < gap + origLen ==> padded[j] == (if gap <= j < gap + k then pcm[j - gap] else 0.0)
        {
          padded[gap + k] := pcm[k];
        }
        out := padded[..];
      }
      assert out == Silence(gap) + pcm;
      audioPlayedSamples := target + origLen;
    }
  }

  /** Any frame is played as it is, behind as much silence as is missing, when it lies at
      most 8000 samples past what has been played; and behind none, as a new anchor, when
      it is the first, lies further on, or comes late. */
  lemma AlignIs(t: Timeline, ts: uint32, pcm: Pcm)
    ensures var a, d := Align(t, ts, pcm), (ts - t.baseTs) % 0x1_0000_0000;
            if t.anchored && t.played <= d <= t.played + 8000
            then
              && |a.pcm| == d - t.played + |pcm| && a.pcm[d - t.played..] == pcm
              && (forall k :: 0 <= k < d - t.played ==> a.pcm[k] == 0.0)
              && a.timeline == Timeline(true, t.baseTs, d + |pcm|)
            else a.pcm == pcm && a.timeline == Timeline(true, ts, |pcm|)
  {
  }

  // ------------------------------------------------------------------
  // What has been played
  // ------------------------------------------------------------------

  datatype Packet = Packet(ts: uint32, pcm: Pcm)

  function AlignRun(t: Timeline, ps: seq<Packet>): (t': Timeline) {
    if ps == [] then t
    else
      var n := |ps| - 1;
      Align(AlignRun(t, ps[..n]), ps[n].ts, ps[n].pcm).timeline
  }

  /** All samples handed on since the last packet that became an anchor. */
  function SinceAnchor(t: Timeline, ps: seq<Packet>): Pcm {
    if ps == [] then []
    else
      var n := |ps| - 1;
      var before := AlignRun(t, ps[..n]);
      (if Anchors(before, ps[n].ts) then [] else SinceAnchor(t, ps[..n]))
      + Align(before, ps[n].ts, ps[n].pcm).pcm
  }

  /** For any packets whatever, audioPlayedSamples counts what was handed on since the
      last anchor. */
  lemma {:induction false} PlayedCounts(ps: seq<Packet>)
    ensures AlignRun(UNSET, ps).played == |SinceAnchor(UNSET, ps)|
  {
    if ps != [] {
      PlayedCounts(ps[..|ps| - 1]);
    }
  }

  // ------------------------------------------------------------------
  // The peer's audio, restored
  // ------------------------------------------------------------------

  /** A frame at its true place in the peer's audio, in samples from the start. */
  datatype Frame = Frame(pos: nat, pcm: Pcm)

  function End(f: Frame): nat {
    f.pos + |f.pcm|
  }

  /** The timestamp the peer gives a frame: samples, modulo 2^32, from a random start. */
  function Stamp(ts0: uint32, f: Frame): uint32 {
    (ts0 + f.pos) % TWO32
  }

  /** Frames received in order, each after the end of the one before. */
  predicate InOrder(end: nat, fs: seq<Frame>)
    decreases |fs|
  {
    fs == [] || (fs[0].pos >= end && InOrder(End(fs[0]), fs[1..]))
  }

  /** The peer's audio from `end` on, with silence for what was lost. */
  function Restored(end: nat, fs: seq<Frame>): Pcm
    requires InOrder(end, fs)
    decreases |fs|
  {
    if fs == [] then [] else Silence(fs[0].pos - end) + fs[0].pcm + Restored(End(fs[0]), fs[1..])
  }

  /** What is handed on for the frames, end to end. */
  function Played(t: Timeline, ts0: uint32, fs: seq<Frame>): Pcm
    decreases |fs|
  {
    if fs == [] then []
    else
      var a := Align(t, Stamp(ts0, fs[0]), fs[0].pcm);
      a.pcm + Played(a.timeline, ts0, fs[1..])
  }

  /** The hole before a frame at `pos` is filled: it is short, and the counter has not
      come round since the anchor. */
  predicate Bridges(anchor: nat, end: nat, pos: nat) {
    pos - end <= 8000 && pos - anchor < 0x1_0000_0000
  }

  /** Every hole is filled or empty; a frame behind an empty hole that cannot be
      reached from the anchor becomes the anchor itself. */
  predicate AllBridged(anchor: nat, end: nat, fs: seq<Frame>)
    requires InOrder(end, fs)
    decreases |fs|
  {
    fs == []
    || ((fs[0].pos == end || Bridges(anchor, end, fs[0].pos))
        && AllBridged(if Bridges(anchor, end, fs[0].pos) then anchor else fs[0].pos, End(fs[0]), fs[1..]))
  }

  /** The timeline knows the audio from `anchor` to `end` as played. */
  predicate Tracks(t: Timeline, ts0: uint32, anchor: nat, end: nat) {
    t.anchored && t.baseTs == (ts0 + anchor) % TWO32 && anchor <= end && t.played == end - anchor
  }

  lemma WholeTurns(x: int, k: int)
    ensures (x + TWO32 * k) % TWO32 == x % TWO32
  {
    assert x == TWO32 * (x / TWO32) + x % TWO32;
    assert x + TWO32 * k == TWO32 * (x / TWO32 + k) + x % TWO32;
  }

  lemma TargetIs(t: Timeline, ts0: uint32, anchor: nat, end: nat, f: Frame)
    requires Tracks(t, ts0, anchor, end) && f.pos >= end
    ensures Target(t, Stamp(ts0, f)) == (f.pos - anchor) % TWO32
  {
    var a, b := ts0 + f.pos, ts0 + anchor;
    assert a == TWO32 * (a / TWO32) + a % TWO32 && b == TWO32 * (b / TWO32) + b % TWO32;
    WholeTurns(f.pos - anchor, b / TWO32 - a / TWO32);
  }

  /** One frame: the silence put before it never exceeds the hole, and is the hole
      exactly when the hole is empty or bridged. */
  lemma StepPads(t: Timeline, ts0: uint32, anchor: nat, end: nat, f: Frame) returns (anchor': nat)
    requires Tracks(t, ts0, anchor, end) && f.pos >= end
    ensures var a := Align(t, Stamp(ts0, f), f.pcm);
            && Tracks(a.timeline, ts0, anchor', End(f))
            && |a.pcm| <= f.pos - end + |f.pcm|
            && (f.pos == end || Bridges(anchor, end, f.pos) ==>
                  a.pcm == Silence(f.pos - end) + f.pcm && anchor' == if Bridges(anchor, end, f.pos) then anchor else f.pos)
            && (f.pos > end && !Bridges(anchor, end, f.pos) ==> |a.pcm| < f.pos - end + |f.pcm|)
  {
    TargetIs(t, ts0, anchor, end, f);
    var d := f.pos - anchor;
    var turns := d / TWO32;
    assert d == TWO32 * turns + d % TWO32;
    assert turns > 0 ==> d >= TWO32;
    var target := Target(t, Stamp(ts0, f));
    if Anchors(t, Stamp(ts0, f)) {
      anchor' := f.pos;
      assert Silence(0) + f.pcm == f.pcm;
    } else {
      anchor' := f.pos - target;
      assert ts0 + anchor' == ts0 + anchor + TWO32 * turns;
      WholeTurns(ts0 + anchor, turns);
    }
  }

  /** Over any frames in order: never more than the true audio, and the true audio
      exactly when every hole is bridged. */
  lemma {:induction false} PlayedIff(t: Timeline, ts0: uint32, anchor: nat, end: nat, fs: seq<Frame>)
    requires Tracks(t, ts0, anchor, end) && InOrder(end, fs)
    ensures |Played(t, ts0, fs)| <= |Restored(end, fs)|
    ensures Played(t, ts0, fs) == Restored(end, fs) <==> AllBridged(anchor, end, fs)
    decreases |fs|
  {
    if fs != [] {
      var f, rest := fs[0], fs[1..];
      var a := Align(t, Stamp(ts0, f), f.pcm);
      var anchor' := StepPads(t, ts0, anchor, end, f);
      PlayedIff(a.timeline, ts0, anchor', End(f), rest);
      var p, r := Played(a.timeline, ts0, rest), Restored(End(f), rest);
      if a.pcm == Silence(f.pos - end) + f.pcm {
        SamePrefix(a.pcm, p, r);
      }
    }
  }

  lemma SamePrefix(x: Pcm, p: Pcm, r: Pcm)
    ensures x + p == x + r <==> p == r
  {
    assert (x + p)[|x|..] == p && (x + r)[|x|..] == r;
  }

  /** The receiver's output is the peer's audio from the first frame it receives, with
      each lost frame replaced by as much silence, if and only if every hole is
      bridged. */
  lemma TimelineRestored(t: Timeline, ts0: uint32, fs: seq<Frame>)
    requires !t.anchored && fs != [] && InOrder(fs[0].pos, fs)
    ensures Played(t, ts0, fs) == Restored(fs[0].pos, fs) <==> AllBridged(fs[0].pos, End(fs[0]), fs[1..])
  {
    var f, rest := fs[0], fs[1..];
    var a := Align(t, Stamp(ts0, f), f.pcm);
    PlayedIff(a.timeline, ts0, f.pos, End(f), rest);
    assert Silence(0) + f.pcm == f.pcm;
    SamePrefix(f.pcm, Played(a.timeline, ts0, rest), Restored(End(f), rest));
  }

  /** All holes short, and less than 2^32 samples in all. */
  predicate ShortHoles(end: nat, fs: seq<Frame>, limit: nat)
    decreases |fs|
  {
    fs == [] || (fs[0].pos <= end + 8000 && fs[0].pos < limit && ShortHoles(End(fs[0]), fs[1..], limit))
  }

  lemma {:induction false} ShortHolesBridged(anchor: nat, end: nat, fs: seq<Frame>)
    requires InOrder(end, fs) && anchor <= end && ShortHoles(end, fs, anchor + TWO32)
    ensures AllBridged(anchor, end, fs)
    decreases |fs|
  {
    if fs != [] {
      ShortHolesBridged(anchor, End(fs[0]), fs[1..]);
    }
  }

  /** Any in-order loss that leaves only short holes is made good. */
  lemma ShortLossRestored(t: Timeline, ts0: uint32, fs: seq<Frame>)
    requires !t.anchored && fs != [] && InOrder(fs[0].pos, fs)
    requires ShortHoles(End(fs[0]), fs[1..], fs[0].pos + TWO32)
    ensures Played(t, ts0, fs) == Restored(fs[0].pos, fs)
  {
    ShortHolesBridged(fs[0].pos, End(fs[0]), fs[1..]);
    TimelineRestored(t, ts0, fs);
  }

  // ------------------------------------------------------------------
  // Captured audio, cut into frames
  // ------------------------------------------------------------------

  /** The captured samples not sent yet, the position in the hold music, and the flags
      that choose between them. */
  datatype Capture = Capture(buf: Pcm, mohPos: nat, held: bool, mohEnabled: bool)

  /** What is sent on a tick, and what it leaves. */
  datatype Ticked = Ticked(capture: Capture, frame: Pcm)

  /** FeedCapturedPCM: only the newest four frames are kept. */
  function FeedPcm(c: Capture, data: Pcm, frameSize: nat): Capture {
    var all := c.buf + data;
    c.(buf := if |all| > 4 * frameSize then all[|all| - 4 * frameSize..] else all)
  }

  /** The hold music, round and round; without any it is silence. */
  function MohTrack(loop: Pcm): nat -> real {
    (i: nat) => if loop == [] then 0.0 else loop[i % |loop|]
  }

  /** `n` samples of a track, from its `from`-th on. */
  function Stretch(track: nat -> real, from: nat, n: nat): (frame: Pcm)
    ensures |frame| == n
  {
    seq(n, i requires 0 <= i => track(from + i))
  }

  function MohFrom(loop: Pcm, from: nat, n: nat): (frame: Pcm)
    ensures |frame| == n
  {
    Stretch(MohTrack(loop), from, n)
  }

  /** Hold, of a call that is not held: the music starts over. */
  function Held(c: Capture, moh: bool): Capture {
    if c.held then c else Capture(c.buf, 0, true, moh)
  }

  /** Resume, of a call that is held. */
  function Resumed(c: Capture): Capture {
    if c.held then c.(held := false, mohEnabled := false) else c
  }

  function Tick(c: Capture, loop: Pcm, frameSize: nat): (t: Ticked) {
    if c.held then
      if c.mohEnabled
      then Ticked(c.(mohPos := if loop == [] then c.mohPos else (c.mohPos + frameSize) % |loop|),
                  MohFrom(loop, c.mohPos, frameSize))
      else Ticked(c, Silence(frameSize))
    else if |c.buf| >= frameSize then Ticked(c.(buf := c.buf[frameSize..]), c.buf[..frameSize])
    else Ticked(c, Silence(frameSize))
  }

  class CaptureSender {
    const frameSize: nat
    const mohLoop: Pcm
    /** The codec could be made; without it the call has no audio. */
    const hasCodec: bool
    var captureBuf: Pcm
    var mohPos: nat
    var held: bool
    var mohEnabled: bool

    ghost predicate Valid()
      reads this
    {
      mohLoop == [] || mohPos < |mohLoop|
    }

    function State(): Capture
      reads this
    {
      Capture(captureBuf, mohPos, held, mohEnabled)
    }

    constructor (frameSize: nat, mohLoop: Pcm, hasCodec: bool)
      ensures Valid() && State() == Capture([], 0, false, false)
      ensures this.frameSize == frameSize && this.mohLoop == mohLoop && this.hasCodec == hasCodec
    {
      this.frameSize, this.mohLoop, this.hasCodec := frameSize, mohLoop, hasCodec;
      captureBuf, mohPos, held, mohEnabled := [], 0, false, false;
    }

    method FeedCapturedPCM(data: Pcm)
      requires Valid()
      modifies `captureBuf
      ensures Valid()
      ensures State() == if hasCodec && data != [] then FeedPcm(old(State()), data, frameSize) else old(State())
    {
      if !hasCodec || |data| == 0 {
        return;
      }
      captureBuf := captureBuf + data;
      var maxBuffered := frameSize * 4;
      if |captureBuf| > maxBuffered {
        captureBuf := captureBuf[|captureBuf| - maxBuffered..];
      }
    }

    /** The fields that Hold sets once its transition is taken. */
    method SetHeld(moh: bool)
      requires Valid() && !held
      modifies this
      ensures Valid() && State() == Held(old(State()), moh)
    {
      held := true;
      mohEnabled := moh;
      mohPos := 0;
    }

    /** The fields that Resume clears once its transition is taken. */
    method ClearHeld()
      requires Valid() && held
      modifies this
      ensures Valid() && State() == Resumed(old(State()))
    {
      held := false;
      mohEnabled := false;
    }

    /** nextMohFrameLocked */
    method NextMohFrame() returns (out: Pcm)
      requires Valid()
      modifies `mohPos
      ensures Valid() && out == MohFrom(mohLoop, old(mohPos), frameSize)
      ensures mohPos == if mohLoop == [] then old(mohPos) else (old(mohPos) + frameSize) % |mohLoop|
    {
      var frame := new real[frameSize](_ => 0.0);
      if |mohLoop| == 0 {
        return frame[..];
      }
      ghost var music := MohFrom(mohLoop, mohPos, frameSize);
      assert mohPos % |mohLoop| == mohPos;
      for i := 0 to frameSize
        invariant mohPos < |mohLoop| && mohPos == (old(mohPos) + i) % |mohLoop|
        invariant frame[..i] == music[..i]
      {
        frame[i] := mohLoop[mohPos];
        assert frame[..i + 1] == frame[..i] + [music[i]];
        NextRound(old(mohPos) + i, |mohLoop|);
        mohPos := mohPos + 1;
        if mohPos >= |mohLoop| {
          mohPos := 0;
        }
      }
      assert frame[..frameSize] == frame[..];
      out := frame[..];
    }

    /** The frame the send loop encodes on a tick. */
    method NextFrame() returns (frame: Pcm)
      requires Valid()
      modifies `captureBuf, `mohPos
      ensures Valid() && Ticked(State(), frame) == Tick(old(State()), mohLoop, frameSize)
    {
      frame := Silence(frameSize);
      if held {
        if mohEnabled {
          frame := NextMohFrame();
        }
      } else if |captureBuf| >= frameSize {
        frame := captureBuf[..frameSize];
        captureBuf := captureBuf[frameSize..];
      }
    }
  }

  /** A hold and the resume after it leave the captured samples alone, and what is held is
      the music or nothing. */
  lemma HeldThenResumed(c: Capture, moh: bool)
    requires !c.held
    ensures Held(c, moh).held && Held(c, moh).mohEnabled == moh && Held(c, moh).mohPos == 0
    ensures var c' := Resumed(Held(c, moh)); c'.buf == c.buf && !c'.held && !c'.mohEnabled
  {
  }

  lemma NextRound(n: nat, size: nat)
    requires size > 0
    ensures (n + 1) % size == if n % size + 1 == size then 0 else n % size + 1
  {
    var q, r := n / size, n % size;
    assert n == size * q + r;
    if r + 1 == size {
      assert n + 1 == size * (q + 1) + 0 by { assert size * (q + 1) == size * q + size; }
      Quotient(n + 1, size, q + 1, 0);
    } else {
      Quotient(n + 1, size, q, r + 1);
    }
  }

  // ------------------------------------------------------------------
  // A tape and a head
  // ------------------------------------------------------------------

  /** A hold or resume that is refused is no event. */
  datatype Event = Fed(data: Pcm) | Holds(moh: bool) | Resumes | Ticks

  function Step(c: Capture, loop: Pcm, n: nat, e: Event): Ticked {
    match e
    case Fed(data) => Ticked(FeedPcm(c, data, n), [])
    case Holds(moh) => Ticked(Held(c, moh), [])
    case Resumes => Ticked(Resumed(c), [])
    case Ticks => Tick(c, loop, n)
  }

  /** What the other side hears instead of the tape: nothing, silence, or hold music of
      which so much has been played. */
  datatype Pause = Running | Silent | Music(played: nat)

  /** All that was ever captured, how far it has been sent or dropped, and whether the
      call is held. */
  datatype Tape = Tape(fed: Pcm, head: nat, pause: Pause)

  datatype TapeTicked = TapeTicked(tape: Tape, frame: Pcm)

  /** The reference: each frame is the next stretch of the tape, and the head skips
      ahead only past samples older than the newest four frames; each hold plays the
      music from its start, without a break. */
  function TapeStep(t: Tape, loop: Pcm, n: nat, e: Event): TapeTicked
    requires t.head <= |t.fed|
  {
    match e
    case Fed(data) =>
      var fed := t.fed + data;
      TapeTicked(t.(fed := fed, head := if t.head < |fed| - 4 * n then |fed| - 4 * n else t.head), [])
    case Holds(moh) =>
      TapeTicked(if t.pause != Running then t else t.(pause := if moh then Music(0) else Silent), [])
    case Resumes => TapeTicked(t.(pause := Running), [])
    case Ticks =>
      match t.pause
      case Music(played) => TapeTicked(t.(pause := Music(played + n)), MohFrom(loop, played, n))
      case Silent => TapeTicked(t, Silence(n))
      case Running =>
        if t.head + n <= |t.fed| then TapeTicked(t.(head := t.head + n), t.fed[t.head..t.head + n])
        else TapeTicked(t, Silence(n))
  }

  function Sent(c: Capture, loop: Pcm, n: nat, es: seq<Event>): seq<Pcm>
    decreases |es|
  {
    if es == [] then [] else [Step(c, loop, n, es[0]).frame] + Sent(Step(c, loop, n, es[0]).capture, loop, n, es[1..])
  }

  function TapeSent(t: Tape, loop: Pcm, n: nat, es: seq<Event>): seq<Pcm>
    requires t.head <= |t.fed|
    decreases |es|
  {
    if es == [] then []
    else [TapeStep(t, loop, n, es[0]).frame] + TapeSent(TapeStep(t, loop, n, es[0]).tape, loop, n, es[1..])
  }

  predicate Matches(c: Capture, t: Tape, loop: Pcm) {
    && t.head <= |t.fed| && c.buf == t.fed[t.head..]
    && (c.held <==> t.pause != Running)
    && (c.held ==> (c.mohEnabled <==> t.pause.Music?))
    && (c.held && c.mohEnabled ==> InTune(c.mohPos, t.pause.played, loop))
  }

  lemma MohRound(loop: Pcm, from: nat, n: nat)
    requires loop != []
    ensures MohFrom(loop, from % |loop|, n) == MohFrom(loop, from, n)
  {
    var a, b := MohFrom(loop, from % |loop|, n), MohFrom(loop, from, n);
    forall i | 0 <= i < n ensures a[i] == b[i] {
      AddMod(from, i, |loop|);
    }
  }

  lemma FedMatches(fed: Pcm, head: nat, data: Pcm, max: nat)
    requires head <= |fed|
    ensures fed[head..] + data == (fed + data)[head..]
    ensures var all := fed[head..] + data;
            |all| > max ==> all[|all| - max..] == (fed + data)[|fed + data| - max..]
  {
  }

  lemma MusicMatches(loop: Pcm, pos: nat, played: nat, n: nat)
    requires loop != [] && pos == played % |loop|
    ensures MohFrom(loop, pos, n) == MohFrom(loop, played, n)
    ensures (pos + n) % |loop| == (played + n) % |loop|
  {
    MohRound(loop, played, n);
    AddMod(played, n, |loop|);
  }

  lemma NoMusic(from: nat, from': nat, n: nat)
    ensures MohFrom([], from, n) == MohFrom([], from', n)
  {
  }

  /** The position in the music is that of what has been played. */
  predicate InTune(pos: nat, played: nat, loop: Pcm) {
    loop != [] ==> pos == played % |loop|
  }

  lemma TickMusic(c: Capture, t: Tape, loop: Pcm, n: nat)
    requires Matches(c, t, loop) && t.pause.Music?
    ensures Tick(c, loop, n).frame == TapeStep(t, loop, n, Ticks).frame
    ensures Matches(Tick(c, loop, n).capture, TapeStep(t, loop, n, Ticks).tape, loop)
  {
    if loop == [] {
      NoMusic(c.mohPos, t.pause.played, n);
    } else {
      MusicMatches(loop, c.mohPos, t.pause.played, n);
    }
  }

  lemma TickVoice(c: Capture, t: Tape, loop: Pcm, n: nat)
    requires Matches(c, t, loop) && !t.pause.Music?
    ensures Tick(c, loop, n).frame == TapeStep(t, loop, n, Ticks).frame
    ensures Matches(Tick(c, loop, n).capture, TapeStep(t, loop, n, Ticks).tape, loop)
  {
    if t.pause.Running? && |c.buf| >= n {
      assert c.buf[..n] == t.fed[t.head..t.head + n] && c.buf[n..] == t.fed[t.head + n..];
    }
  }

  lemma StepMatches(c: Capture, t: Tape, loop: Pcm, n: nat, e: Event)
    requires Matches(c, t, loop)
    ensures Step(c, loop, n, e).frame == TapeStep(t, loop, n, e).frame
    ensures Matches(Step(c, loop, n, e).capture, TapeStep(t, loop, n, e).tape, loop)
  {
    match e {
      case Fed(data) => FedMatches(t.fed, t.head, data, 4 * n);
      case Ticks =>
        if t.pause.Music? {
          TickMusic(c, t, loop, n);
        } else {
          TickVoice(c, t, loop, n);
        }
      case _ =>
    }
  }

  /** Every run of captures, holds, resumes and ticks: the bounded buffer and the wrapping
      loop position send exactly what the tape sends. */
  lemma {:induction false} BufferRefinesTape(c: Capture, t: Tape, loop: Pcm, n: nat, es: seq<Event>)
    requires Matches(c, t, loop)
    ensures Sent(c, loop, n, es) == TapeSent(t, loop, n, es)
    decreases |es|
  {
    if es != [] {
      StepMatches(c, t, loop, n, es[0]);
      BufferRefinesTape(Step(c, loop, n, es[0]).capture, TapeStep(t, loop, n, es[0]).tape, loop, n, es[1..]);
    }
  }

  // ------------------------------------------------------------------
  // Hold music
  // ------------------------------------------------------------------

  function Flat(frames: seq<Pcm>): Pcm {
    if frames == [] then [] else frames[0] + Flat(frames[1..])
  }

  function TickCount(es: seq<Event>): nat {
    if es == [] then 0 else (if es[0].Ticks? then 1 else 0) + TickCount(es[1..])
  }

  lemma StretchJoins(track: nat -> real, from: nat, a: nat, b: nat)
    ensures Stretch(track, from, a) + Stretch(track, from + a, b) == Stretch(track, from, a + b)
  {
    var x, y, z := Stretch(track, from, a), Stretch(track, from + a, b), Stretch(track, from, a + b);
    forall i | 0 <= i < a + b ensures (x + y)[i] == z[i] {
      if i >= a {
        assert from + a + (i - a) == from + i;
      }
    }
  }

  lemma FlatFirst(frame: Pcm, rest: seq<Pcm>)
    ensures Flat([frame] + rest) == frame + Flat(rest)
  {
    assert ([frame] + rest)[0] == frame && ([frame] + rest)[1..] == rest;
  }

  lemma TimesNext(n: nat, k: nat)
    ensures n + n * k == n * (k + 1)
  {
  }

  lemma MusicStep(t: Tape, loop: Pcm, n: nat, e: Event)
    requires t.head <= |t.fed| && t.pause.Music? && e != Resumes
    ensures var step, played := TapeStep(t, loop, n, e), t.pause.played;
            && step.tape.pause == Music(if e.Ticks? then played + n else played)
            && step.frame == (if e.Ticks? then MohFrom(loop, played, n) else [])
            && step.tape.head <= |step.tape.fed|
  {
  }

  lemma {:induction false} MusicGoesOn(t: Tape, loop: Pcm, n: nat, es: seq<Event>)
    requires t.head <= |t.fed| && t.pause.Music? && Resumes !in es
    ensures Flat(TapeSent(t, loop, n, es)) == MohFrom(loop, t.pause.played, n * TickCount(es))
    decreases |es|
  {
    if es != [] {
      var step, played, k := TapeStep(t, loop, n, es[0]), t.pause.played, TickCount(es[1..]);
      MusicStep(t, loop, n, es[0]);
      var rest := TapeSent(step.tape, loop, n, es[1..]);
      assert Flat(rest) == MohFrom(loop, step.tape.pause.played, n * k) by {
        assert es == [es[0]] + es[1..];
        MusicGoesOn(step.tape, loop, n, es[1..]);
      }
      FlatFirst(step.frame, rest);
      if es[0].Ticks? {
        StretchJoins(MohTrack(loop), played, n, n * k);
        TimesNext(n, k);
      } else {
        NilLeft(Flat(rest));
      }
    }
  }

  /** From a hold with music on, whatever happened before and whatever is captured
      meanwhile, the ticks until the next resume send the music from its first sample on,
      round and round, without a break: the next hold starts it over. */
  lemma HoldMusic(c: Capture, loop: Pcm, n: nat, es: seq<Event>)
    requires !c.held && Resumes !in es
    ensures Flat(Sent(c, loop, n, [Holds(true)] + es)) == MohFrom(loop, 0, n * TickCount(es))
  {
    var t, run := Tape(c.buf, 0, Running), [Holds(true)] + es;
    assert run[0] == Holds(true) && run[1..] == es;
    BufferRefinesTape(c, t, loop, n, run);
    var t' := TapeStep(t, loop, n, run[0]).tape;
    MusicGoesOn(t', loop, n, es);
    var rest := TapeSent(t', loop, n, es);
    FlatFirst([], rest);
    NilLeft(Flat(rest));
  }
}
