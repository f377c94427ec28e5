/** The lifecycle of one call (internal/voip/call/callstate.go).  Times are
    nanoseconds of a clock that never goes back. */
module CallState {

  import opened Clock
  import opened Wrappers

  /** A *time.Time. */
  type Moment = Option<nat>

  datatype State = Initiating | Ringing | IncomingRinging | Connecting | Active | OnHold | Ended

  datatype Direction = Outgoing | Incoming

  datatype MediaType = Audio | Video

  datatype StateData = StateData(
    state: State, connectedAt: Moment, acceptedAt: Moment, endedAt: Moment,
    audioMuted: bool, videoOff: bool, silenced: bool, endReason: string, durationSecs: int)

  datatype Transition =
    | OfferSent
    | OfferReceived(silence: bool)
    | LocalAccepted
    | RemoteAccepted
    | LocalRejected(reason: string)
    | RemoteRejected(reason: string)
    | MediaConnected
    | Terminated(reason: string)
    | Hold
    | Resume
    | AudioMuteChanged(muted: bool)
    | VideoStateChanged(off: bool)
    | Unknown(name: string)

  function Fresh(d: Direction, media: MediaType): StateData {
    StateData(if d == Outgoing then Initiating else IncomingRinging, None, None, None,
              false, media != Video, false, "", 0)
  }

  /** The states a transition is taken in. */
  predicate Allowed(s: State, t: Transition) {
    match t
    case OfferSent => s == Initiating
    case OfferReceived(_) => s == Initiating
    case LocalAccepted => s == IncomingRinging
    case RemoteAccepted => s == Ringing
    case LocalRejected(_) => s == IncomingRinging
    case RemoteRejected(_) => s == Ringing
    case MediaConnected => s == Connecting
    case Terminated(_) => s != Ended
    case Hold => s == Active
    case Resume => s == OnHold
    case AudioMuteChanged(_) => s == Active
    case VideoStateChanged(_) => s == Active
    case Unknown(_) => false
  }

  /** int(d.Seconds()) of a duration in nanoseconds. */
  function WholeSeconds(d: int): int {
    if d >= 0 then d / SECOND else -(-d / SECOND)
  }

  function Close(s: StateData, reason: string, now: nat): StateData {
    s.(state := Ended, endedAt := Some(now), endReason := reason)
  }

  /** What a transition that is taken does. */
  function Taken(s: StateData, media: MediaType, t: Transition, now: nat): StateData
    requires Allowed(s.state, t)
  {
    match t
    case OfferSent => s.(state := Ringing)
    case OfferReceived(silence) => s.(state := IncomingRinging, silenced := silence)
    case RemoteAccepted => s.(state := Connecting, acceptedAt := Some(now))
    case LocalAccepted => s.(state := Connecting, acceptedAt := Some(now))
    case RemoteRejected(reason) => Close(s, reason, now)
    case LocalRejected(reason) => Close(s, reason, now)
    case MediaConnected => s.(state := Active, connectedAt := Some(now), videoOff := media != Video)
    case Terminated(reason) =>
      var talked := (s.state == Active || s.state == OnHold) && s.connectedAt.Some?;
      Close(if talked then s.(durationSecs := WholeSeconds(now - s.connectedAt.value)) else s, reason, now)
    case Hold => s.(state := OnHold)
    case Resume => s.(state := Active)
    case AudioMuteChanged(muted) => s.(audioMuted := muted)
    case VideoStateChanged(off) => s.(videoOff := off)
  }

  /** A transition that is not allowed changes nothing. */
  function Apply(s: StateData, media: MediaType, t: Transition, now: nat): StateData {
    if Allowed(s.state, t) then Taken(s, media, t, now) else s
  }

  class CallInfo {
    const callID: string
    const peerJid: string
    const callCreator: string
    const direction: Direction
    const mediaType: MediaType
    const createdAt: nat
    const callerPn: string
    var stateData: StateData

    constructor NewOutgoingCall(callID: string, peerJid: string, ourJid: string, mediaType: MediaType, now: nat)
      ensures stateData == Fresh(Outgoing, mediaType) && direction == Outgoing && this.mediaType == mediaType
      ensures this.callID == callID && this.peerJid == peerJid && callCreator == ourJid
      ensures createdAt == now && callerPn == ""
    {
      this.callID, this.peerJid, this.callCreator := callID, peerJid, ourJid;
      direction, this.mediaType, createdAt, callerPn := Outgoing, mediaType, now, "";
      stateData := StateData(Initiating, None, None, None, false, mediaType != Video, false, "", 0);
    }

    constructor NewIncomingCall(callID: string, peerJid: string, callCreator: string, callerPn: string,
                                mediaType: MediaType, now: nat)
      ensures stateData == Fresh(Incoming, mediaType) && direction == Incoming && this.mediaType == mediaType
      ensures this.callID == callID && this.peerJid == peerJid && this.callCreator == callCreator
      ensures createdAt == now && this.callerPn == callerPn
    {
      this.callID, this.peerJid, this.callCreator := callID, peerJid, callCreator;
      direction, this.mediaType, createdAt, this.callerPn := Incoming, mediaType, now, callerPn;
      stateData := StateData(IncomingRinging, None, None, None, false, mediaType != Video, false, "", 0);
    }

    predicate IsEnded()
      reads this
    {
      stateData.state == Ended
    }

    predicate CanAccept()
      reads this
    {
      stateData.state == IncomingRinging
    }

    method ApplyTransition(t: Transition, now: nat) returns (ok: bool)
      modifies this
      ensures ok <==> Allowed(old(stateData).state, t)
      ensures stateData == Apply(old(stateData), mediaType, t, now)
    {
      ok := false;
      match t {
        case OfferSent =>
          if stateData.state != Initiating { return; }
          stateData := stateData.(state := Ringing);
        case OfferReceived(silence) =>
          if stateData.state != Initiating { return; }
          stateData := stateData.(state := IncomingRinging);
          stateData := stateData.(silenced := silence);
        case RemoteAccepted =>
          if stateData.state != Ringing { return; }
          stateData := stateData.(state := Connecting);
          stateData := stateData.(acceptedAt := Some(now));
        case LocalAccepted =>
          if stateData.state != IncomingRinging { return; }
          stateData := stateData.(state := Connecting);
          stateData := stateData.(acceptedAt := Some(now));
        case RemoteRejected(reason) =>
          if stateData.state != Ringing { return; }
          stateData := stateData.(state := Ended);
          stateData := stateData.(endedAt := Some(now));
          stateData := stateData.(endReason := reason);
        case LocalRejected(reason) =>
          if stateData.state != IncomingRinging { return; }
          stateData := stateData.(state := Ended);
          stateData := stateData.(endedAt := Some(now));
          stateData := stateData.(endReason := reason);
        case MediaConnected =>
          if stateData.state != Connecting { return; }
          stateData := stateData.(state := Active);
          stateData := stateData.(connectedAt := Some(now));
          stateData := stateData.(videoOff := mediaType != Video);
        case Terminated(reason) =>
          if stateData.state == Ended { return; }
          if (stateData.state == Active || stateData.state == OnHold) && stateData.connectedAt.Some? {
            stateData := stateData.(durationSecs := WholeSeconds(now - stateData.connectedAt.value));
          }
          stateData := stateData.(state := Ended);
          stateData := stateData.(endedAt := Some(now));
          stateData := stateData.(endReason := reason);
        case Hold =>
          if stateData.state != Active { return; }
          stateData := stateData.(state := OnHold);
        case Resume =>
          if stateData.state != OnHold { return; }
          stateData := stateData.(state := Active);
        case AudioMuteChanged(muted) =>
          if stateData.state != Active { return; }
          stateData := stateData.(audioMuted := muted);
        case VideoStateChanged(off) =>
          if stateData.state != Active { return; }
          stateData := stateData.(videoOff := off);
        case Unknown(_) =>
          return;
      }
      ok := true;
    }
  }

  // ------------------------------------------------------------------
  // The lifecycle as a graph
  // ------------------------------------------------------------------

  /** How a call can come to each state. */
  predicate Leads(from: State, t: Transition, to: State) {
    match to
    case Initiating => false
    case Ringing => from == Initiating && t.OfferSent?
    case IncomingRinging => from == Initiating && t.OfferReceived?
    case Connecting => (from == Ringing && t.RemoteAccepted?) || (from == IncomingRinging && t.LocalAccepted?)
    case Active => (from == Connecting && t.MediaConnected?) || (from == OnHold && t.Resume?)
    case OnHold => from == Active && t.Hold?
    case Ended =>
      from != Ended && (t.Terminated? || (from == Ringing && t.RemoteRejected?) || (from == IncomingRinging && t.LocalRejected?))
  }

  /** A transition moves the call along exactly these edges. */
  lemma MovesIff(s: StateData, media: MediaType, t: Transition, now: nat, to: State)
    requires to != s.state
    ensures Apply(s, media, t, now).state == to <==> Leads(s.state, t, to)
  {
  }

  function ReasonOf(t: Transition): string {
    if t.LocalRejected? || t.RemoteRejected? || t.Terminated? then t.reason else ""
  }

  /** Field by field, what any transition does: the call ends with its reason, counting the
      seconds it was up; media that connects sets the camera by the kind of call; and
      microphone and camera are switched only while it is active. */
  lemma FieldsAfter(s: StateData, media: MediaType, t: Transition, now: nat)
    requires Stamped(s) && Ordered(s, now)
    ensures var s' := Apply(s, media, t, now);
            var ends, connects := s.state != Ended && s'.state == Ended, s.state == Connecting && s'.state == Active;
            && s'.endReason == (if ends then ReasonOf(t) else s.endReason)
            && s'.endedAt == (if ends then Some(now) else s.endedAt)
            && s'.connectedAt == (if connects then Some(now) else s.connectedAt)
            && s'.acceptedAt == (if s.state != Connecting && s'.state == Connecting then Some(now) else s.acceptedAt)
            && s'.silenced == (if s.state == Initiating && t.OfferReceived? then t.silence else s.silenced)
            && s'.audioMuted == (if s.state == Active && t.AudioMuteChanged? then t.muted else s.audioMuted)
            && s'.videoOff == (if connects then media == Audio
                               else if s.state == Active && t.VideoStateChanged? then t.off else s.videoOff)
            && (ends && s.state in {Active, OnHold} ==>
                  s'.durationSecs * 1_000_000_000 <= now - s.connectedAt.value < (s'.durationSecs + 1) * 1_000_000_000)
            && (!(ends && s.state in {Active, OnHold}) ==> s'.durationSecs == s.durationSecs)
  {
  }

  /** A call with its camera as its kind says, silent and not muted. */
  lemma FreshIs(d: Direction, media: MediaType)
    ensures var s := Fresh(d, media);
            && s.state == (match d case Outgoing => Initiating case Incoming => IncomingRinging)
            && s.acceptedAt == None && s.connectedAt == None && s.endedAt == None
            && !s.audioMuted && s.videoOff == (media == Audio) && !s.silenced && s.endReason == "" && s.durationSecs == 0
  {
  }

  // ------------------------------------------------------------------
  // Runs
  // ------------------------------------------------------------------

  datatype Attempt = Attempt(t: Transition, at: nat)

  predicate Monotone(run: seq<Attempt>) {
    forall i, j :: 0 <= i < j < |run| ==> run[i].at <= run[j].at
  }

  /** The call after the first `n` attempted transitions. */
  function After(s: StateData, media: MediaType, run: seq<Attempt>, n: nat): StateData
    requires n <= |run|
  {
    if n == 0 then s else Apply(After(s, media, run, n - 1), media, run[n - 1].t, run[n - 1].at)
  }

  /** The times at which transitions in `kinds` were taken. */
  function TimesTaken(s: StateData, media: MediaType, run: seq<Attempt>, n: nat, kinds: Transition -> bool): seq<nat>
    requires n <= |run|
  {
    if n == 0 then []
    else
      TimesTaken(s, media, run, n - 1, kinds) + IfTaken(After(s, media, run, n - 1), run[n - 1], kinds)
  }

  function AsSeq(o: Moment): seq<nat> {
    match o
    case None => []
    case Some(t) => [t]
  }

  function Accepting(): Transition -> bool { (t: Transition) => t.LocalAccepted? || t.RemoteAccepted? }

  function MediaConnecting(): Transition -> bool { (t: Transition) => t.MediaConnected? }

  function Ending(): Transition -> bool {
    (t: Transition) => t.LocalRejected? || t.RemoteRejected? || t.Terminated?
  }

  predicate Unanswered(s: State) {
    s == Initiating || s == Ringing || s == IncomingRinging
  }

  /** The order of the timestamps, none of them after `now`. */
  predicate Ordered(s: StateData, now: nat) {
    && (s.acceptedAt.Some? ==> s.acceptedAt.value <= now)
    && (s.connectedAt.Some? ==> s.acceptedAt.Some? && s.acceptedAt.value <= s.connectedAt.value <= now)
    && (s.endedAt.Some? ==> s.endedAt.value <= now)
    && (s.endedAt.Some? && s.connectedAt.Some? ==> s.connectedAt.value <= s.endedAt.value)
  }

  /** Which timestamps are set in which state. */
  predicate Stamped(s: StateData) {
    && (s.state == Ended <==> s.endedAt.Some?)
    && (Unanswered(s.state) ==> s.acceptedAt.None? && s.connectedAt.None?)
    && (s.state == Connecting ==> s.acceptedAt.Some? && s.connectedAt.None?)
    && (s.state == Active || s.state == OnHold ==> s.connectedAt.Some? && s.acceptedAt.Some?)
  }

  predicate Timed(s: StateData) {
    s.durationSecs == if s.endedAt.Some? && s.connectedAt.Some?
                      then WholeSeconds(s.endedAt.value - s.connectedAt.value) else 0
  }

  /** What holds of a call at any time `now`. */
  predicate Consistent(s: StateData, now: nat) {
    Stamped(s) && Ordered(s, now) && Timed(s)
  }

  lemma StepStamped(s: StateData, media: MediaType, a: Attempt)
    requires Stamped(s)
    ensures Stamped(Apply(s, media, a.t, a.at))
  {
  }

  lemma StepOrdered(s: StateData, media: MediaType, a: Attempt, before: nat)
    requires Stamped(s) && Ordered(s, before) && before <= a.at
    ensures Ordered(Apply(s, media, a.t, a.at), a.at)
  {
    if Allowed(s.state, a.t) {
      var s' := Taken(s, media, a.t, a.at);
      assert s'.acceptedAt == s.acceptedAt || s'.acceptedAt == Some(a.at);
      assert s'.connectedAt == s.connectedAt || (s'.connectedAt == Some(a.at) && s.state == Connecting);
      assert s'.endedAt == s.endedAt || s'.endedAt == Some(a.at);
    }
  }

  lemma StepTimed(s: StateData, media: MediaType, a: Attempt)
    requires Stamped(s) && Timed(s)
    ensures Timed(Apply(s, media, a.t, a.at))
  {
  }

  function Now(run: seq<Attempt>, n: nat): nat
    requires n <= |run|
  {
    if n == 0 then 0 else run[n - 1].at
  }

  lemma StepConsistent(s0: StateData, media: MediaType, run: seq<Attempt>, n: nat)
    requires 0 < n <= |run| && Now(run, n - 1) <= Now(run, n)
    requires Consistent(After(s0, media, run, n - 1), Now(run, n - 1))
    ensures Consistent(After(s0, media, run, n), Now(run, n))
  {
    var s := After(s0, media, run, n - 1);
    StepStamped(s, media, run[n - 1]);
    StepOrdered(s, media, run[n - 1], Now(run, n - 1));
    StepTimed(s, media, run[n - 1]);
  }

  /** Every run of any attempted transitions, from a fresh call: Ended and EndedAt
      coincide; an active or held call was accepted and then connected; and the duration
      is the whole seconds from the connection to the end of an ended call that became
      active, and 0 otherwise. */
  lemma {:induction false} LifecycleConsistent(d: Direction, media: MediaType, run: seq<Attempt>, n: nat)
    requires Monotone(run) && n <= |run|
    ensures Consistent(After(Fresh(d, media), media, run, n), Now(run, n))
  {
    if n > 0 {
      LifecycleConsistent(d, media, run, n - 1);
      StepConsistent(Fresh(d, media), media, run, n);
    }
  }

  /** Ended is absorbing: nothing of an ended call changes any more. */
  lemma {:induction false} EndedAbsorbs(s: StateData, media: MediaType, run: seq<Attempt>, n: nat, m: nat)
    requires n <= m <= |run| && After(s, media, run, n).state == Ended
    ensures After(s, media, run, m) == After(s, media, run, n)
  {
    if m > n {
      EndedAbsorbs(s, media, run, n, m - 1);
    }
  }

  function IfTaken(s: StateData, a: Attempt, kinds: Transition -> bool): seq<nat> {
    if kinds(a.t) && Allowed(s.state, a.t) then [a.at] else []
  }

  lemma StepAccepted(s: StateData, media: MediaType, a: Attempt)
    requires Stamped(s)
    ensures AsSeq(Apply(s, media, a.t, a.at).acceptedAt) == AsSeq(s.acceptedAt) + IfTaken(s, a, Accepting())
  {
  }

  lemma StepConnected(s: StateData, media: MediaType, a: Attempt)
    requires Stamped(s)
    ensures AsSeq(Apply(s, media, a.t, a.at).connectedAt) == AsSeq(s.connectedAt) + IfTaken(s, a, MediaConnecting())
  {
  }

  lemma StepEnded(s: StateData, media: MediaType, a: Attempt)
    requires Stamped(s)
    ensures AsSeq(Apply(s, media, a.t, a.at).endedAt) == AsSeq(s.endedAt) + IfTaken(s, a, Ending())
  {
  }

  lemma StepTimes(s: StateData, media: MediaType, a: Attempt)
    requires Stamped(s)
    ensures var s' := Apply(s, media, a.t, a.at);
            && AsSeq(s'.acceptedAt) == AsSeq(s.acceptedAt) + IfTaken(s, a, Accepting())
            && AsSeq(s'.connectedAt) == AsSeq(s.connectedAt) + IfTaken(s, a, MediaConnecting())
            && AsSeq(s'.endedAt) == AsSeq(s.endedAt) + IfTaken(s, a, Ending())
  {
    StepAccepted(s, media, a);
    StepConnected(s, media, a);
    StepEnded(s, media, a);
  }

  /** The timestamps are those of the transitions taken so far. */
  predicate Historic(s0: StateData, media: MediaType, run: seq<Attempt>, n: nat)
    requires n <= |run|
  {
    var s := After(s0, media, run, n);
    && TimesTaken(s0, media, run, n, Accepting()) == AsSeq(s.acceptedAt)
    && TimesTaken(s0, media, run, n, MediaConnecting()) == AsSeq(s.connectedAt)
    && TimesTaken(s0, media, run, n, Ending()) == AsSeq(s.endedAt)
  }

  lemma StepHistoric(s0: StateData, media: MediaType, run: seq<Attempt>, n: nat)
    requires 0 < n <= |run| && Stamped(After(s0, media, run, n - 1)) && Historic(s0, media, run, n - 1)
    ensures Historic(s0, media, run, n)
  {
    StepTimes(After(s0, media, run, n - 1), media, run[n - 1]);
  }

  ghost predicate StampedAt(s0: StateData, media: MediaType, run: seq<Attempt>, n: nat) {
    n <= |run| && Stamped(After(s0, media, run, n))
  }

  lemma {:induction false} HistoricWhileStamped(s0: StateData, media: MediaType, run: seq<Attempt>, n: nat)
    requires n <= |run| && Historic(s0, media, run, 0)
    requires forall k: nat :: k < n ==> StampedAt(s0, media, run, k)
    ensures Historic(s0, media, run, n)
  {
    if n > 0 {
      HistoricWhileStamped(s0, media, run, n - 1);
      assert StampedAt(s0, media, run, n - 1);
      StepHistoric(s0, media, run, n);
    }
  }

  /** Every run: each of the three timestamps is the time of the one transition that
      sets it, which is taken at most once: a call is accepted at most once, media
      connects at most once, and it ends at most once. */
  lemma TimestampsAreHistory(d: Direction, media: MediaType, run: seq<Attempt>, n: nat)
    requires Monotone(run) && n <= |run|
    ensures Historic(Fresh(d, media), media, run, n)
  {
    forall k: nat | k < n ensures StampedAt(Fresh(d, media), media, run, k) {
      LifecycleConsistent(d, media, run, k);
    }
    HistoricWhileStamped(Fresh(d, media), media, run, n);
  }
}
