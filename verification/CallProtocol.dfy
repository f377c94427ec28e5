/** The call manager's critical sections and their interleavings
    (internal/voip/call/callmanager*.go, internal/voip/transport/sctprelay.go:197-213). */
module CallProtocol {
  import opened CallState
  import opened Wrappers
  import R = RelayTransport

  // ------------------------------------------------------------------
  // The critical sections, as functions
  // ------------------------------------------------------------------

  /** What the manager knows of its call. */
  datatype Manager = Manager(
    call: StateData, media: MediaType, acceptedBy: string, devices: seq<string>, held: bool, mohEnabled: bool)

  function Moved(m: Manager, t: Transition, now: nat): Manager {
    m.(call := Apply(m.call, m.media, t, now))
  }

  /** The callee's devices other than the one that answered. */
  function Siblings(devices: seq<string>, device: string): (others: seq<string>) {
    if devices == [] then []
    else (if devices[0] != device then [devices[0]] else []) + Siblings(devices[1..], device)
  }

  /** An accept goes on unless another device was first. */
  predicate MayAccept(m: Manager, device: string) {
    m.acceptedBy == "" || m.acceptedBy == device
  }

  function Accepted(m: Manager, device: string, now: nat): Manager {
    Moved(m, RemoteAccepted, now).(acceptedBy := device)
  }

  /** The devices told that the call was accepted elsewhere. */
  function FanOut(m: Manager, device: string): seq<string> {
    if m.acceptedBy == "" then Siblings(m.devices, device) else []
  }

  /** A terminate of a device that did not answer an answered call. */
  predicate FromSibling(m: Manager, from: string) {
    m.acceptedBy != "" && from != "" && from != m.acceptedBy
  }

  function TerminateFrom(m: Manager, from: string, reason: string, now: nat): Manager {
    if FromSibling(m, from) then m else Moved(m, Terminated(reason), now)
  }

  function Holding(m: Manager, moh: bool, now: nat): Manager {
    if m.call.state == Active then Moved(m, Hold, now).(held := true, mohEnabled := moh) else m
  }

  function Resuming(m: Manager, now: nat): Manager {
    if m.call.state == OnHold then Moved(m, Resume, now).(held := false, mohEnabled := false) else m
  }

  // ------------------------------------------------------------------
  // The manager, updated in place
  // ------------------------------------------------------------------

  class CallManager {
    const relay: R.SctpRelayManager
    var currentCall: CallInfo?
    var acceptedByJid: string
    var calleeDevices: seq<string>
    var held: bool
    var mohEnabled: bool
    var mohPos: nat

    ghost function State(): Manager
      requires currentCall != null
      reads this, currentCall
    {
      Manager(currentCall.stateData, currentCall.mediaType, acceptedByJid, calleeDevices, held, mohEnabled)
    }

    constructor (relay: R.SctpRelayManager)
      ensures currentCall == null && acceptedByJid == "" && calleeDevices == [] && !held && this.relay == relay
    {
      this.relay := relay;
      currentCall, acceptedByJid, calleeDevices, held, mohEnabled, mohPos := null, "", [], false, false, 0;
    }

    /** The first section of StartCall. */
    method StartCall(callID: string, peerJid: string, ourJid: string, media: MediaType, now: nat) returns (ok: bool)
      modifies this
      ensures ok <==> old(currentCall) == null || old(currentCall.stateData).state == Ended
      ensures if ok then fresh(currentCall) && State().call == Fresh(Outgoing, media) && State().media == media
              else currentCall == old(currentCall)
      ensures acceptedByJid == old(acceptedByJid) && calleeDevices == old(calleeDevices) && held == old(held)
    {
      if currentCall != null && !currentCall.IsEnded() {
        return false;
      }
      currentCall := new CallInfo.NewOutgoingCall(callID, peerJid, ourJid, media, now);
      ok := true;
    }

    /** The second section of StartCall. */
    method OfferIsSent(devices: seq<string>, now: nat)
      requires currentCall != null
      modifies this, currentCall
      ensures currentCall == old(currentCall)
      ensures State() == Moved(old(State()), OfferSent, now).(devices := devices)
    {
      calleeDevices := devices;
      var _ := currentCall.ApplyTransition(OfferSent, now);
    }

    /** HandleCallOffer: the call replaces whatever there was. */
    method HandleCallOffer(callID: string, peerJid: string, creator: string, callerPn: string, media: MediaType, now: nat)
      modifies this
      ensures currentCall != null && fresh(currentCall)
      ensures State().call == Fresh(Incoming, media) && State().media == media
      ensures acceptedByJid == old(acceptedByJid) && calleeDevices == old(calleeDevices) && held == old(held)
    {
      currentCall := new CallInfo.NewIncomingCall(callID, peerJid, creator, callerPn, media, now);
    }

    method AcceptCall(callID: string, now: nat) returns (ok: bool)
      modifies this, currentCall
      ensures currentCall == old(currentCall)
      ensures ok <==> currentCall != null && currentCall.callID == callID && old(currentCall.stateData).state == IncomingRinging
      ensures currentCall != null ==> State() == if ok then Moved(old(State()), LocalAccepted, now) else old(State())
    {
      if currentCall == null || currentCall.callID != callID {
        return false;
      }
      if !currentCall.CanAccept() {
        return false;
      }
      ok := currentCall.ApplyTransition(LocalAccepted, now);
    }

    method RejectCall(callID: string, reason: string, now: nat) returns (ok: bool)
      modifies this, currentCall
      ensures currentCall == old(currentCall) && (ok <==> currentCall != null && currentCall.callID == callID)
      ensures currentCall != null ==> State() == if ok then Moved(old(State()), LocalRejected(reason), now) else old(State())
    {
      if currentCall == null || currentCall.callID != callID {
        return false;
      }
      var _ := currentCall.ApplyTransition(LocalRejected(reason), now);
      ok := true;
    }

    method EndCall(reason: string, now: nat) returns (ended: bool)
      modifies this, currentCall
      ensures currentCall == old(currentCall)
      ensures ended <==> currentCall != null && old(currentCall.stateData).state != Ended
      ensures currentCall != null ==> State() == Moved(old(State()), Terminated(reason), now)
    {
      if currentCall == null || currentCall.IsEnded() {
        return false;
      }
      ended := currentCall.ApplyTransition(Terminated(reason), now);
    }

    method HoldCall(moh: bool, now: nat) returns (ok: bool)
      modifies this, currentCall
      ensures currentCall == old(currentCall)
      ensures ok <==> currentCall != null && old(currentCall.stateData).state == Active
      ensures currentCall != null ==> State() == Holding(old(State()), moh, now)
      ensures mohPos == if ok then 0 else old(mohPos)
    {
      if currentCall == null {
        return false;
      }
      ok := currentCall.ApplyTransition(Hold, now);
      if !ok {
        return;
      }
      held := true;
      mohEnabled := moh;
      mohPos := 0;
    }

    method ResumeCall(now: nat) returns (ok: bool)
      modifies this, currentCall
      ensures currentCall == old(currentCall)
      ensures ok <==> currentCall != null && old(currentCall.stateData).state == OnHold
      ensures currentCall != null ==> State() == Resuming(old(State()), now)
      ensures mohPos == old(mohPos)
    {
      if currentCall == null {
        return false;
      }
      ok := currentCall.ApplyTransition(Resume, now);
      if !ok {
        return;
      }
      held := false;
      mohEnabled := false;
    }

    /** The first section of HandleCallAccept. */
    method CheckAccept(device: string) returns (goesOn: bool)
      ensures currentCall != null ==> (goesOn <==> MayAccept(State(), device))
      ensures currentCall == null ==> !goesOn
    {
      if acceptedByJid != "" && acceptedByJid != device {
        return false;
      }
      goesOn := currentCall != null;
    }

    /** The section of HandleCallAccept that accepts. */
    method CommitAccept(device: string, now: nat) returns (hasConn: bool, siblings: seq<string>)
      requires currentCall != null && relay.State().Valid()
      modifies this, currentCall
      ensures currentCall == old(currentCall)
      ensures State() == Accepted(old(State()), device, now) && siblings == FanOut(old(State()), device)
      ensures hasConn <==> old(relay.State()).HasConnection()
    {
      var _ := currentCall.ApplyTransition(RemoteAccepted, now);
      var firstAccept := acceptedByJid == "";
      acceptedByJid := device;
      hasConn := relay.HasConnection();
      siblings := [];
      if firstAccept {
        for i := 0 to |calleeDevices|
          modifies {}
          invariant siblings == Siblings(calleeDevices[..i], device)
        {
          SiblingsSnoc(calleeDevices[..i], calleeDevices[i], device);
          assert calleeDevices[..i + 1] == calleeDevices[..i] + [calleeDevices[i]];
          if calleeDevices[i] != device {
            siblings := siblings + [calleeDevices[i]];
          }
        }
        assert calleeDevices[..|calleeDevices|] == calleeDevices;
      }
    }

    /** The last section of HandleCallAccept, when a relay was connected; and the section
        of onRelayConnected, which tests the state first. */
    method MediaIsConnected(now: nat) returns (connected: bool)
      requires currentCall != null
      modifies currentCall
      ensures State() == Moved(old(State()), MediaConnected, now)
      ensures connected <==> old(State()).call.state == Connecting
    {
      connected := currentCall.ApplyTransition(MediaConnected, now);
    }

    method OnRelayConnected(now: nat) returns (connected: bool)
      modifies currentCall
      ensures currentCall != null ==> State() == Moved(old(State()), MediaConnected, now)
      ensures connected <==> currentCall != null && old(State()).call.state == Connecting
    {
      connected := false;
      if currentCall != null && currentCall.stateData.state == Connecting {
        connected := MediaIsConnected(now);
      }
    }

    method HandleCallTerminate(from: string, reason: string, now: nat) returns (handled: bool)
      modifies currentCall
      ensures currentCall != null ==> State() == TerminateFrom(old(State()), from, reason, now)
      ensures handled <==> currentCall != null && (old(State()).call.state == Ended || !FromSibling(old(State()), from))
    {
      if currentCall == null {
        return false;
      }
      if acceptedByJid != "" && from != "" && from != acceptedByJid && !currentCall.IsEnded() {
        return false;
      }
      var _ := currentCall.ApplyTransition(Terminated(reason), now);
      handled := true;
    }
  }

  lemma {:induction false} SiblingsSnoc(devices: seq<string>, d: string, device: string)
    ensures Siblings(devices + [d], device) == Siblings(devices, device) + if d != device then [d] else []
  {
    if devices == [] {
      assert [] + [d] == [d] && [d][1..] == [];
    } else {
      assert (devices + [d])[0] == devices[0] && (devices + [d])[1..] == devices[1..] + [d];
      SiblingsSnoc(devices[1..], d, device);
    }
  }

  /** The fan-out names exactly the callee's devices that did not answer. */
  lemma {:induction false} SiblingsAreOthers(devices: seq<string>, device: string, d: string)
    ensures d in Siblings(devices, device) <==> d in devices && d != device
  {
    if devices != [] {
      SiblingsAreOthers(devices[1..], device, d);
      assert devices == [devices[0]] + devices[1..];
    }
  }

  // ------------------------------------------------------------------
  // Interleavings
  // ------------------------------------------------------------------

  /** How far a running HandleCallAccept has come. */
  datatype Handler = Checked(device: string) | Committed(hasConn: bool)

  /** The call manager, its relays, the accept handlers that are running, how many
      opened relays have not reported yet, and what has been done so far: the fan-outs
      sent and the number of times media was taken as connected. */
  datatype World = World(
    mgr: Manager, relays: R.Relays, handlers: map<nat, Handler>, callbacks: nat,
    fanOuts: seq<seq<string>>, connects: nat)

  /** One atomic step: each takes a lock once. */
  datatype Event =
    | AcceptArrives(h: nat, device: string, wellFormed: bool)
    | AcceptCommits(h: nat)
    | AcceptFinishes(h: nat)
    | AnswerHere
    | RejectHere(reason: string)
    | EndHere(reason: string)
    | Terminates(from: string, reason: string)
    | Holds(moh: bool)
    | Resumes
    | Dials(id: R.ConnId)
    | Opens(c: nat)
    | Reports
    | Fails(c: nat)
    | Closes(id: R.ConnId)
    | CleansUp

  datatype Timed = Timed(e: Event, now: nat)

  /** Media is taken as connected, if the call is waiting for it. */
  function ConnectMedia(w: World, now: nat): World {
    w.(mgr := Moved(w.mgr, MediaConnected, now), connects := w.connects + if w.mgr.call.state == Connecting then 1 else 0)
  }

  ghost function Commit(w: World, h: nat, now: nat): World
    requires w.relays.Valid() && h in w.handlers && w.handlers[h].Checked?
  {
    var device := w.handlers[h].device;
    var others := FanOut(w.mgr, device);
    w.(mgr := Accepted(w.mgr, device, now), handlers := w.handlers[h := Committed(w.relays.HasConnection())],
       fanOuts := if others == [] then w.fanOuts else w.fanOuts + [others])
  }

  function Finish(w: World, h: nat, now: nat): World
    requires h in w.handlers && w.handlers[h].Committed?
  {
    var ended := w.(handlers := w.handlers - {h});
    if w.handlers[h].hasConn then ConnectMedia(ended, now) else ended
  }

  /** A step that is not possible in `w` does nothing. */
  ghost function Step(w: World, e: Event, now: nat): (w': World)
    requires w.relays.Valid()
    ensures w'.relays.Valid()
  {
    match e
    case AcceptArrives(h, device, wellFormed) =>
      if wellFormed && h !in w.handlers && MayAccept(w.mgr, device) then w.(handlers := w.handlers[h := Checked(device)])
      else w
    case AcceptCommits(h) => if h in w.handlers && w.handlers[h].Checked? then Commit(w, h, now) else w
    case AcceptFinishes(h) => if h in w.handlers && w.handlers[h].Committed? then Finish(w, h, now) else w
    case AnswerHere => w.(mgr := Moved(w.mgr, LocalAccepted, now))
    case RejectHere(reason) => w.(mgr := Moved(w.mgr, LocalRejected(reason), now))
    case EndHere(reason) => w.(mgr := Moved(w.mgr, Terminated(reason), now))
    case Terminates(from, reason) => w.(mgr := TerminateFrom(w.mgr, from, reason, now))
    case Holds(moh) => w.(mgr := Holding(w.mgr, moh, now))
    case Resumes => w.(mgr := Resuming(w.mgr, now))
    case Dials(id) => w.(relays := R.Register(w.relays, id))
    case Opens(c) =>
      if c < |w.relays.table| && |w.relays.OpenIds()| < R.MAX_OPEN_RELAYS
      then w.(relays := R.Opened(w.relays, c), callbacks := w.callbacks + 1)
      else w
    case Reports => if w.callbacks > 0 then ConnectMedia(w.(callbacks := w.callbacks - 1), now) else w
    case Fails(c) => if c < |w.relays.table| then w.(relays := R.Failing(w.relays, c)) else w
    case Closes(id) => w.(relays := R.Closing(w.relays, id))
    case CleansUp => w.(relays := w.relays.(connections := map[]))
  }

  /** The call just offered, on either side. */
  function Start(d: Direction, media: MediaType, devices: seq<string>): (w: World)
    ensures w.relays.Valid()
  {
    World(Manager(if d == Outgoing then Fresh(d, media).(state := Ringing) else Fresh(d, media),
                  media, "", devices, false, false),
          R.NO_RELAYS, map[], 0, [], 0)
  }

  ghost function After(w: World, run: seq<Timed>, n: nat): (w': World)
    requires w.relays.Valid() && n <= |run|
    ensures w'.relays.Valid()
  {
    if n == 0 then w else Step(After(w, run, n - 1), run[n - 1].e, run[n - 1].now)
  }

  // ------------------------------------------------------------------
  // What single steps do
  // ------------------------------------------------------------------

  /** An accept is taken up exactly when it is well formed and no other device was first. */
  lemma AcceptArrivesIff(w: World, h: nat, device: string, wellFormed: bool, now: nat)
    requires w.relays.Valid() && h !in w.handlers
    ensures var w' := Step(w, AcceptArrives(h, device, wellFormed), now);
            && (h in w'.handlers <==> wellFormed && (w.mgr.acceptedBy == "" || w.mgr.acceptedBy == device))
            && (h in w'.handlers ==> w'.handlers == w.handlers[h := Checked(device)])
            && w'.mgr == w.mgr && w'.relays == w.relays && w'.fanOuts == w.fanOuts
  {
  }

  /** The commit of an accept: the first tells all other devices, if there are any, and
      what it remembers is whether a relay is open. */
  lemma CommitTells(w: World, h: nat, now: nat)
    requires w.relays.Valid() && h in w.handlers && w.handlers[h].Checked?
    ensures var w', device := Step(w, AcceptCommits(h), now), w.handlers[h].device;
            && w'.mgr.acceptedBy == device && w'.handlers == w.handlers[h := Committed(w.relays.OpenIds() != {})]
            && (w.mgr.acceptedBy != "" ==> w'.fanOuts == w.fanOuts)
            && (w.mgr.acceptedBy == "" ==>
                  w'.fanOuts == w.fanOuts + if Siblings(w.mgr.devices, device) == [] then [] else [Siblings(w.mgr.devices, device)])
  {
    NilRight(w.fanOuts);
  }

  lemma NilRight<T>(a: seq<T>)
    ensures a + [] == a
  {
  }

  /** A waiting call becomes active when a relay reports, or an accept handler that saw one
      finishes; nothing else becomes of any other call. */
  lemma ReportConnects(w: World, e: Event, now: nat)
    requires w.relays.Valid()
    requires (e.Reports? && w.callbacks > 0) || (e.AcceptFinishes? && e.h in w.handlers && w.handlers[e.h] == Committed(true))
    ensures var w' := Step(w, e, now);
            if w.mgr.call.state == Connecting
            then w'.mgr.call.state == Active && w'.mgr.call.connectedAt == Some(now) && w'.connects == w.connects + 1
            else w'.mgr == w.mgr && w'.connects == w.connects
  {
  }

  /** Holding an active call mutes it, with or without music, and resuming a held one undoes
      that; neither does anything to any other call. */
  lemma HoldsAndResumes(w: World, moh: bool, now: nat)
    requires w.relays.Valid()
    ensures var m, held, resumed := w.mgr, Step(w, Holds(moh), now).mgr, Step(w, Resumes, now).mgr;
            && (if m.call.state == Active then held.call.state == OnHold && held.held && held.mohEnabled == moh else held == m)
            && (if m.call.state == OnHold then resumed.call.state == Active && !resumed.held && !resumed.mohEnabled
                else resumed == m)
            && (m.call.state == Active && !m.held && !m.mohEnabled ==> Resuming(held, now) == m)
  {
  }

  // ------------------------------------------------------------------
  // What every run keeps
  // ------------------------------------------------------------------

  /** At most two relays are registered and open; media was taken as connected exactly as often as the
      call says, which is at most once; and until the call ends, the manager mutes the
      microphone exactly while the call is on hold. */
  ghost predicate Sane(w: World) {
    R.Capped(w.relays) && CallSane(w.mgr, w.connects)
  }

  predicate CallSane(m: Manager, connects: nat) {
    && Stamped(m.call)
    && connects == |AsSeq(m.call.connectedAt)|
    && (m.call.state != Ended ==> (m.held <==> m.call.state == OnHold))
  }

  /** Something that will connect a waiting call is under way: an open relay has yet to
      report, or an accept handler saw one. */
  ghost predicate UnderWay(w: World) {
    w.callbacks > 0 || exists h :: h in w.handlers && w.handlers[h] == Committed(true)
  }

  /** No wakeup is lost: while the call waits for media and a relay is open, something
      that will connect it is under way. */
  ghost predicate Awake(w: World)
    requires w.relays.Valid()
  {
    w.mgr.call.state == Connecting && w.relays.HasConnection() ==> UnderWay(w)
  }

  lemma StepRelaysCapped(w: World, e: Event, now: nat)
    requires R.Capped(w.relays)
    ensures R.Capped(Step(w, e, now).relays)
  {
    match e {
      case Dials(id) => R.RegisterCapped(w.relays, id);
      case Opens(c) => if c < |w.relays.table| { R.OpenedCapped(w.relays, c); }
      case Fails(c) => if c < |w.relays.table| { R.FailingCapped(w.relays, c); }
      case Closes(id) => R.ClosingCapped(w.relays, id);
      case CleansUp => R.FewerOpen(w.relays, w.relays.(connections := map[]));
      case _ =>
    }
  }

  lemma MovedSane(m: Manager, t: Transition, now: nat, connects: nat)
    requires CallSane(m, connects) && !t.Hold? && !t.Resume?
    ensures CallSane(Moved(m, t, now), connects + if t.MediaConnected? && m.call.state == Connecting then 1 else 0)
  {
    StepStamped(m.call, m.media, Attempt(t, now));
    StepTimes(m.call, m.media, Attempt(t, now));
  }

  lemma HeldSane(m: Manager, moh: bool, now: nat, connects: nat)
    requires CallSane(m, connects)
    ensures CallSane(Holding(m, moh, now), connects) && CallSane(Resuming(m, now), connects)
  {
  }

  lemma StepCallSane(w: World, e: Event, now: nat)
    requires w.relays.Valid() && CallSane(w.mgr, w.connects)
    ensures CallSane(Step(w, e, now).mgr, Step(w, e, now).connects)
  {
    match e {
      case AcceptCommits(_) => MovedSane(w.mgr, RemoteAccepted, now, w.connects);
      case AcceptFinishes(_) => MovedSane(w.mgr, MediaConnected, now, w.connects);
      case AnswerHere => MovedSane(w.mgr, LocalAccepted, now, w.connects);
      case RejectHere(reason) => MovedSane(w.mgr, LocalRejected(reason), now, w.connects);
      case EndHere(reason) => MovedSane(w.mgr, Terminated(reason), now, w.connects);
      case Terminates(_, reason) => MovedSane(w.mgr, Terminated(reason), now, w.connects);
      case Holds(moh) => HeldSane(w.mgr, moh, now, w.connects);
      case Resumes => HeldSane(w.mgr, false, now, w.connects);
      case Reports => MovedSane(w.mgr, MediaConnected, now, w.connects);
      case _ =>
    }
  }

  lemma StepSane(w: World, e: Event, now: nat)
    requires Sane(w)
    ensures Sane(Step(w, e, now))
  {
    StepRelaysCapped(w, e, now);
    StepCallSane(w, e, now);
  }

  /** Every interleaving of every kind of step, from a call just offered. */
  lemma {:induction false} AlwaysSane(d: Direction, media: MediaType, devices: seq<string>, run: seq<Timed>, n: nat)
    requires n <= |run|
    ensures Sane(After(Start(d, media, devices), run, n))
  {
    if n > 0 {
      AlwaysSane(d, media, devices, run, n - 1);
      StepSane(After(Start(d, media, devices), run, n - 1), run[n - 1].e, run[n - 1].now);
    }
  }

  /** Only an opening adds an open relay. */
  lemma OnlyOpeningsAdd(w: World, e: Event, now: nat)
    requires w.relays.Valid() && !e.Opens?
    ensures Step(w, e, now).relays.OpenIds() <= w.relays.OpenIds()
  {
  }

  /** AcceptCall takes the call when a relay is open and nothing under way will say so. */
  ghost predicate AnswersLate(w: World, e: Event)
    requires w.relays.Valid()
  {
    e.AnswerHere? && w.mgr.call.state == IncomingRinging && w.relays.HasConnection() && !UnderWay(w)
  }

  lemma StepKeepsAwake(w: World, e: Event, now: nat)
    requires w.relays.Valid() && Awake(w) && !AnswersLate(w, e)
    ensures Awake(Step(w, e, now))
  {
    var w' := Step(w, e, now);
    if w'.mgr.call.state == Connecting && w'.relays.HasConnection() {
      if !e.Opens? {
        OnlyOpeningsAdd(w, e, now);
      }
      if e.AcceptCommits? && e.h in w.handlers && w.handlers[e.h].Checked? {
        assert w'.handlers[e.h] == Committed(true);
      } else if w.callbacks == 0 && w'.callbacks == 0 {
        assert UnderWay(w);
        var h :| h in w.handlers && w.handlers[h] == Committed(true);
        assert h in w'.handlers && w'.handlers[h] == Committed(true);
      }
    }
  }

  /** A step loses the wakeup exactly when it answers here too late: only AcceptCall
      starts to wait without looking at the relays. */
  lemma StepAwake(w: World, e: Event, now: nat)
    requires w.relays.Valid() && Awake(w)
    ensures Awake(Step(w, e, now)) <==> !AnswersLate(w, e)
  {
    if !AnswersLate(w, e) {
      StepKeepsAwake(w, e, now);
    }
  }

  ghost predicate AwakeAt(w: World, run: seq<Timed>, k: nat)
    requires w.relays.Valid()
  {
    k <= |run| && Awake(After(w, run, k))
  }

  ghost predicate InTimeAt(w: World, run: seq<Timed>, k: nat)
    requires w.relays.Valid()
  {
    k < |run| && !AnswersLate(After(w, run, k), run[k].e)
  }

  /** No answer here comes too late. */
  ghost predicate AnswersInTime(w: World, run: seq<Timed>, n: nat)
    requires w.relays.Valid()
  {
    forall k: nat :: k < n ==> InTimeAt(w, run, k)
  }

  lemma NthAwake(w: World, run: seq<Timed>, n: nat)
    requires w.relays.Valid() && n < |run| && AwakeAt(w, run, n)
    ensures AwakeAt(w, run, n + 1) <==> InTimeAt(w, run, n)
  {
    StepAwake(After(w, run, n), run[n].e, run[n].now);
  }

  lemma {:induction false} AwakeWhileInTime(w: World, run: seq<Timed>, n: nat)
    requires w.relays.Valid() && AwakeAt(w, run, 0) && n <= |run| && AnswersInTime(w, run, n)
    ensures AwakeAt(w, run, n)
  {
    if n > 0 {
      AwakeWhileInTime(w, run, n - 1);
      assert InTimeAt(w, run, n - 1);
      NthAwake(w, run, n - 1);
    }
  }

  /** Every interleaving, from any call that is awake: it is awake all the time if and
      only if no answer here comes too late. */
  lemma AlwaysAwakeIff(w: World, run: seq<Timed>, n: nat)
    requires w.relays.Valid() && Awake(w) && n <= |run|
    ensures (forall k: nat :: k <= n ==> AwakeAt(w, run, k)) <==> AnswersInTime(w, run, n)
  {
    assert AwakeAt(w, run, 0);
    if AnswersInTime(w, run, n) {
      forall k: nat | k <= n ensures AwakeAt(w, run, k) {
        AwakeWhileInTime(w, run, k);
      }
    }
    if forall k: nat :: k <= n ==> AwakeAt(w, run, k) {
      forall k: nat | k < n ensures InTimeAt(w, run, k) {
        assert AwakeAt(w, run, k) && AwakeAt(w, run, k + 1);
        NthAwake(w, run, k);
      }
    }
  }

  /** Nothing is under way: no accept is being handled and every opened relay reported. */
  predicate Quiet(w: World) {
    w.handlers == map[] && w.callbacks == 0
  }

  predicate Outgoes(s: State) {
    s != IncomingRinging && s != Initiating
  }

  lemma MovedOutgoes(m: Manager, t: Transition, now: nat)
    requires Outgoes(m.call.state)
    ensures Outgoes(Moved(m, t, now).call.state)
  {
  }

  lemma StepOutgoes(w: World, e: Event, now: nat)
    requires w.relays.Valid() && Outgoes(w.mgr.call.state)
    ensures Outgoes(Step(w, e, now).mgr.call.state)
  {
    match e {
      case AcceptCommits(_) => MovedOutgoes(w.mgr, RemoteAccepted, now);
      case AcceptFinishes(_) => MovedOutgoes(w.mgr, MediaConnected, now);
      case AnswerHere => MovedOutgoes(w.mgr, LocalAccepted, now);
      case RejectHere(reason) => MovedOutgoes(w.mgr, LocalRejected(reason), now);
      case EndHere(reason) => MovedOutgoes(w.mgr, Terminated(reason), now);
      case Terminates(_, reason) => MovedOutgoes(w.mgr, Terminated(reason), now);
      case Reports => MovedOutgoes(w.mgr, MediaConnected, now);
      case _ =>
    }
  }

  /** An outgoing call never answers here. */
  lemma {:induction false} OutgoingNeverRings(media: MediaType, devices: seq<string>, run: seq<Timed>, n: nat)
    requires n <= |run|
    ensures Outgoes(After(Start(Outgoing, media, devices), run, n).mgr.call.state)
  {
    if n > 0 {
      OutgoingNeverRings(media, devices, run, n - 1);
      StepOutgoes(After(Start(Outgoing, media, devices), run, n - 1), run[n - 1].e, run[n - 1].now);
    }
  }

  /** The section of HandleCallAccept that accepts makes a ringing call wait for media, from
      that time on. */
  lemma CommitAccepts(w: World, h: nat, now: nat)
    requires w.relays.Valid() && h in w.handlers && w.handlers[h].Checked? && w.mgr.call.state == Ringing
    ensures var w' := Step(w, AcceptCommits(h), now);
            && w'.mgr.call.state == Connecting && w'.mgr.call.acceptedAt == Some(now)
            && w'.mgr.acceptedBy == w.handlers[h].device
  {
  }

  /** A call that still rings out there has not been accepted by any device. */
  predicate Unaccepted(m: Manager) {
    m.call.state == Ringing ==> m.acceptedBy == ""
  }

  lemma MovedUnaccepted(m: Manager, t: Transition, now: nat)
    requires Unaccepted(m) && !t.OfferSent?
    ensures Unaccepted(Moved(m, t, now))
  {
  }

  lemma StepUnaccepted(w: World, e: Event, now: nat)
    requires w.relays.Valid() && Unaccepted(w.mgr)
    ensures Unaccepted(Step(w, e, now).mgr)
  {
    match e {
      case AcceptCommits(h) =>
        if h in w.handlers && w.handlers[h].Checked? && w.mgr.call.state == Ringing {
          CommitAccepts(w, h, now);
        }
      case AcceptFinishes(_) => MovedUnaccepted(w.mgr, MediaConnected, now);
      case AnswerHere => MovedUnaccepted(w.mgr, LocalAccepted, now);
      case RejectHere(reason) => MovedUnaccepted(w.mgr, LocalRejected(reason), now);
      case EndHere(reason) => MovedUnaccepted(w.mgr, Terminated(reason), now);
      case Terminates(_, reason) => MovedUnaccepted(w.mgr, Terminated(reason), now);
      case Reports => MovedUnaccepted(w.mgr, MediaConnected, now);
      case _ =>
    }
  }

  /** Every run of an outgoing call: once a device has been taken to have answered, the
      call was accepted, unless it is over. */
  lemma {:induction false} AcceptedIsAccepted(media: MediaType, devices: seq<string>, run: seq<Timed>, n: nat)
    requires n <= |run|
    ensures var w := After(Start(Outgoing, media, devices), run, n);
            && Unaccepted(w.mgr)
            && (w.mgr.acceptedBy != "" && w.mgr.call.state != Ended ==> w.mgr.call.acceptedAt.Some?)
  {
    if n > 0 {
      AcceptedIsAccepted(media, devices, run, n - 1);
      StepUnaccepted(After(Start(Outgoing, media, devices), run, n - 1), run[n - 1].e, run[n - 1].now);
    }
    OutgoingNeverRings(media, devices, run, n);
    AlwaysSane(Outgoing, media, devices, run, n);
  }

  /** No lost wakeup.  In every interleaving on an outgoing call of relays being dialed,
      opening, reporting, failing and closing with the separate sections of any number of
      accept handlers, and with holds and ends: once all have finished, a call that a
      device accepted, with an open relay, is no longer waiting, and if it became active, media was taken as
      connected exactly once. */
  lemma NoLostWakeup(media: MediaType, devices: seq<string>, run: seq<Timed>, n: nat)
    requires n <= |run|
    ensures var w := After(Start(Outgoing, media, devices), run, n);
            Quiet(w) && (w.mgr.acceptedBy != "" || w.mgr.call.acceptedAt.Some?) && w.relays.HasConnection() ==>
              && w.mgr.call.state in {Active, OnHold, Ended}
              && (w.mgr.call.state != Ended ==> w.connects == 1)
  {
    var w := Start(Outgoing, media, devices);
    AcceptedIsAccepted(media, devices, run, n);
    forall k: nat | k < n ensures InTimeAt(w, run, k) {
      OutgoingNeverRings(media, devices, run, k);
    }
    AlwaysAwakeIff(w, run, n);
    assert AwakeAt(w, run, n);
    AlwaysSane(Outgoing, media, devices, run, n);
  }

  /** The same on an incoming call, provided no answer comes too late. */
  lemma NoLostWakeupIncoming(media: MediaType, devices: seq<string>, run: seq<Timed>, n: nat)
    requires n <= |run| && AnswersInTime(Start(Incoming, media, devices), run, n)
    ensures var w := After(Start(Incoming, media, devices), run, n);
            Quiet(w) && w.mgr.call.acceptedAt.Some? && w.relays.HasConnection() ==>
              && w.mgr.call.state in {Active, OnHold, Ended}
              && (w.mgr.call.state != Ended ==> w.connects == 1)
  {
    AlwaysAwakeIff(Start(Incoming, media, devices), run, n);
    assert AwakeAt(Start(Incoming, media, devices), run, n);
    AlwaysSane(Incoming, media, devices, run, n);
  }

  /** An answer that comes too late leaves a call that waits for a wakeup that has
      already come. */
  lemma AnswerTooLate(w: World, now: nat)
    requires w.relays.Valid() && Quiet(w) && w.relays.HasConnection() && w.mgr.call.state == IncomingRinging
    ensures var w' := Step(w, AnswerHere, now);
            Quiet(w') && w'.relays.HasConnection() && w'.mgr.call.acceptedAt.Some? && w'.mgr.call.state == Connecting
  {
  }

  /** A run to such a call: an accept event for the incoming call makes the manager dial
      a relay, which opens and reports while the call still rings. */
  function EarlyRelay(id: R.ConnId, now: nat): (run: seq<Timed>) {
    [Timed(AcceptArrives(1, "phone", true), now), Timed(AcceptCommits(1), now), Timed(AcceptFinishes(1), now),
     Timed(Dials(id), now), Timed(Opens(0), now), Timed(Reports, now)]
  }

  /** A call that rings here, with nothing under way. */
  ghost predicate RingsQuietly(w: World) {
    Quiet(w) && w.mgr.call.state == IncomingRinging
  }

  /** An accept event changes nothing of it but the device that is taken to have answered. */
  lemma AcceptIsRefused(w: World, device: string, now: nat)
    requires w.relays == R.NO_RELAYS && RingsQuietly(w) && MayAccept(w.mgr, device)
    ensures var w' := Step(Step(Step(w, AcceptArrives(1, device, true), now), AcceptCommits(1), now), AcceptFinishes(1), now);
            w'.relays == w.relays && RingsQuietly(w')
  {
    var w1 := Step(w, AcceptArrives(1, device, true), now);
    assert w1.handlers == map[1 := Checked(device)];
    assert w.relays.OpenIds() == {};
    var w2 := Step(w1, AcceptCommits(1), now);
    assert w2.handlers == map[1 := Committed(false)];
  }

  lemma FirstRelayOpens(id: R.ConnId)
    ensures var r := R.Opened(R.Register(R.NO_RELAYS, id), 0);
            R.Register(R.NO_RELAYS, id).OpenIds() == {} && r.HasConnection()
  {
    var r := R.Register(R.NO_RELAYS, id);
    assert r.OpenIds() == {};
    assert id in R.Opened(r, 0).OpenIds();
  }

  lemma RelayComesUp(w: World, id: R.ConnId, now: nat)
    requires w.relays == R.NO_RELAYS && RingsQuietly(w)
    ensures var w' := Step(Step(Step(w, Dials(id), now), Opens(0), now), Reports, now);
            RingsQuietly(w') && w'.relays.HasConnection()
  {
    var r := R.Register(R.NO_RELAYS, id);
    FirstRelayOpens(id);
    var w1 := Step(w, Dials(id), now);
    assert w1 == w.(relays := r);
    var w2 := Step(w1, Opens(0), now);
    assert w2 == w1.(relays := R.Opened(r, 0), callbacks := 1);
    assert Step(w2, Reports, now) == w2.(callbacks := 0);
  }

  lemma ThreeSteps(w: World, run: seq<Timed>, n: nat)
    requires w.relays.Valid() && n + 3 <= |run|
    ensures After(w, run, n + 3)
         == Step(Step(Step(After(w, run, n), run[n].e, run[n].now), run[n + 1].e, run[n + 1].now), run[n + 2].e, run[n + 2].now)
  {
    assert After(w, run, n + 3) == Step(After(w, run, n + 2), run[n + 2].e, run[n + 2].now);
    assert After(w, run, n + 2) == Step(After(w, run, n + 1), run[n + 1].e, run[n + 1].now);
  }

  lemma EarlyAccept(media: MediaType, devices: seq<string>, id: R.ConnId, now: nat)
    ensures var w := After(Start(Incoming, media, devices), EarlyRelay(id, now), 3);
            w.relays == R.NO_RELAYS && RingsQuietly(w)
  {
    var w := Start(Incoming, media, devices);
    ThreeSteps(w, EarlyRelay(id, now), 0);
    AcceptIsRefused(w, "phone", now);
  }

  lemma EarlyRelayRings(media: MediaType, devices: seq<string>, id: R.ConnId, now: nat)
    ensures var w := After(Start(Incoming, media, devices), EarlyRelay(id, now), 6);
            RingsQuietly(w) && w.relays.HasConnection()
  {
    var w, run := Start(Incoming, media, devices), EarlyRelay(id, now);
    EarlyAccept(media, devices, id, now);
    ThreeSteps(w, run, 3);
    RelayComesUp(After(w, run, 3), id, now);
  }

  /** So an incoming call can be left waiting from the very start. */
  lemma LateAnswerReachable(media: MediaType, devices: seq<string>, id: R.ConnId, now: nat)
    ensures var w := Start(Incoming, media, devices);
            var run := EarlyRelay(id, now) + [Timed(AnswerHere, now)];
            var w' := After(w, run, 7);
            && !InTimeAt(w, run, 6) && !AwakeAt(w, run, 7)
            && Quiet(w') && w'.relays.HasConnection() && w'.mgr.call.acceptedAt.Some? && w'.mgr.call.state == Connecting
  {
    var w, run := Start(Incoming, media, devices), EarlyRelay(id, now) + [Timed(AnswerHere, now)];
    EarlyRelayRings(media, devices, id, now);
    SamePrefix(w, EarlyRelay(id, now), run, 6);
    AnswerTooLate(After(w, run, 6), now);
  }

  lemma {:induction false} SamePrefix(w: World, run: seq<Timed>, longer: seq<Timed>, n: nat)
    requires w.relays.Valid() && n <= |run| && run <= longer
    ensures After(w, run, n) == After(w, longer, n)
  {
    if n > 0 {
      SamePrefix(w, run, longer, n - 1);
    }
  }

  /** The steps that bring nothing new to a call that waits: none opens a relay, accepts
      again or ends the call. */
  predicate NothingNew(e: Event) {
    !(e.Opens? || e.AcceptArrives? || e.EndHere? || e.Terminates?)
  }

  ghost predicate Stuck(w: World) {
    w.relays.Valid() && Quiet(w) && w.mgr.call.state == Connecting
  }

  lemma StepStuck(w: World, e: Event, now: nat)
    requires Stuck(w) && NothingNew(e)
    ensures Stuck(Step(w, e, now))
  {
  }

  ghost predicate StuckAt(w: World, run: seq<Timed>, k: nat)
    requires w.relays.Valid()
  {
    k <= |run| && Stuck(After(w, run, k))
  }

  lemma NextStuck(w: World, run: seq<Timed>, k: nat)
    requires w.relays.Valid() && k < |run| && NothingNew(run[k].e) && StuckAt(w, run, k)
    ensures StuckAt(w, run, k + 1)
  {
    StepStuck(After(w, run, k), run[k].e, run[k].now);
  }

  /** After an answer that came too late the call waits through any run of such steps. */
  lemma {:induction false} StaysStuck(w: World, now: nat, run: seq<Timed>)
    requires w.relays.Valid() && Quiet(w) && w.relays.HasConnection() && w.mgr.call.state == IncomingRinging
    requires forall k :: 0 <= k < |run| ==> NothingNew(run[k].e)
    ensures After(Step(w, AnswerHere, now), run, |run|).mgr.call.state == Connecting
  {
    AnswerTooLate(w, now);
    var w' := Step(w, AnswerHere, now);
    var p := (k: nat) => StuckAt(w', run, k);
    assert StuckAt(w', run, 0);
    forall k: nat | k < |run| && p(k) ensures p(k + 1) {
      NextStuck(w', run, k);
    }
    Inductively(p, 0, |run|);
  }

  // ------------------------------------------------------------------
  // First accept wins
  // ------------------------------------------------------------------

  /** Accept events arrive one at a time, from named devices. */
  predicate OneAtATime(w: World, e: Event) {
    e.AcceptArrives? ==> w.handlers == map[] && e.device != ""
  }

  ghost predicate Serial(w: World, run: seq<Timed>, n: nat)
    requires w.relays.Valid() && n <= |run|
  {
    forall k: nat :: k < n ==> SerialAt(w, run, k)
  }

  ghost predicate SerialAt(w: World, run: seq<Timed>, k: nat)
    requires w.relays.Valid()
  {
    k < |run| && OneAtATime(After(w, run, k), run[k].e)
  }

  /** At most one handler runs, and only for the device that answered, if one did; and
      the fan-out has been sent once a device answered, to all the other devices. */
  ghost predicate FirstWins(w: World) {
    && (forall h, h' :: h in w.handlers && h' in w.handlers ==> h == h')
    && (forall h :: h in w.handlers && w.handlers[h].Checked? ==>
          w.handlers[h].device != "" && MayAccept(w.mgr, w.handlers[h].device))
    && w.fanOuts == Told(w.mgr)
  }

  /** The fan-outs there should be. */
  function Told(m: Manager): seq<seq<string>> {
    if m.acceptedBy == "" || Siblings(m.devices, m.acceptedBy) == [] then []
    else [Siblings(m.devices, m.acceptedBy)]
  }

  lemma StepFirstWins(w: World, e: Event, now: nat)
    requires w.relays.Valid() && FirstWins(w) && OneAtATime(w, e)
    ensures var w' := Step(w, e, now);
            && FirstWins(w') && w'.mgr.devices == w.mgr.devices
            && (w.mgr.acceptedBy != "" ==> w'.mgr.acceptedBy == w.mgr.acceptedBy)
  {
    if e.AcceptCommits? && e.h in w.handlers && w.handlers[e.h].Checked? {
      var others := FanOut(w.mgr, w.handlers[e.h].device);
      assert others == [] ==> Step(w, e, now).fanOuts == w.fanOuts;
      assert w.mgr.acceptedBy == "" ==> w.fanOuts == [];
      assert w.mgr.acceptedBy == "" && others != [] ==> [] + [others] == [others];
    }
  }

  /** The acceptor and the devices of `w` are those of `w'`, as far as there is one. */
  predicate Keeps(w: World, w': World) {
    w'.mgr.devices == w.mgr.devices && (w.mgr.acceptedBy != "" ==> w'.mgr.acceptedBy == w.mgr.acceptedBy)
  }

  lemma NthFirstWins(w: World, run: seq<Timed>, n: nat)
    requires w.relays.Valid() && 0 < n <= |run| && FirstWins(After(w, run, n - 1))
    requires OneAtATime(After(w, run, n - 1), run[n - 1].e)
    ensures FirstWins(After(w, run, n)) && Keeps(After(w, run, n - 1), After(w, run, n))
  {
    StepFirstWins(After(w, run, n - 1), run[n - 1].e, run[n - 1].now);
  }

  lemma {:induction false} Inductively(p: nat -> bool, n: nat, m: nat)
    requires n <= m && p(n) && forall k: nat :: n <= k < m && p(k) ==> p(k + 1)
    ensures p(m)
    decreases m
  {
    if n < m {
      Inductively(p, n, m - 1);
    }
  }

  ghost predicate KeptSince(w: World, run: seq<Timed>, n: nat, k: nat)
    requires w.relays.Valid() && n <= |run|
  {
    k <= |run| && FirstWins(After(w, run, k)) && Keeps(After(w, run, n), After(w, run, k))
  }

  lemma NextKeptSince(w: World, run: seq<Timed>, n: nat, k: nat)
    requires w.relays.Valid() && n <= k < |run| && SerialAt(w, run, k) && KeptSince(w, run, n, k)
    ensures KeptSince(w, run, n, k + 1)
  {
    NthFirstWins(w, run, k + 1);
  }

  lemma AlwaysKept(w: World, run: seq<Timed>, n: nat, m: nat)
    requires w.relays.Valid() && n <= m <= |run| && Serial(w, run, m) && KeptSince(w, run, n, n)
    ensures KeptSince(w, run, n, m)
  {
    var p := (k: nat) => KeptSince(w, run, n, k);
    forall k: nat | n <= k < m && p(k) ensures p(k + 1) {
      assert SerialAt(w, run, k);
      NextKeptSince(w, run, n, k);
    }
    Inductively(p, n, m);
  }

  /** From any point of a run in which accepts arrive one at a time. */
  lemma AlwaysFirstWins(w: World, run: seq<Timed>, n: nat, m: nat)
    requires w.relays.Valid() && n <= m <= |run| && Serial(w, run, m) && FirstWins(After(w, run, n))
    ensures FirstWins(After(w, run, m)) && Keeps(After(w, run, n), After(w, run, m))
  {
    AlwaysKept(w, run, n, m);
  }

  lemma FreshFirstWins(d: Direction, media: MediaType, devices: seq<string>, run: seq<Timed>)
    ensures After(Start(d, media, devices), run, 0) == Start(d, media, devices)
    ensures FirstWins(Start(d, media, devices))
  {
  }

  /** First accept wins.  In every run in which accepts arrive one at a time, the device
      that answered stays the one that answered, and the only fan-out ever sent names
      exactly the callee's other devices. */
  lemma FirstAcceptWins(d: Direction, media: MediaType, devices: seq<string>, run: seq<Timed>, n: nat, m: nat)
    requires n <= m <= |run| && Serial(Start(d, media, devices), run, m)
    ensures var w, w' := After(Start(d, media, devices), run, n), After(Start(d, media, devices), run, m);
            && (w.mgr.acceptedBy != "" ==> w'.mgr.acceptedBy == w.mgr.acceptedBy)
            && |w'.fanOuts| <= 1
            && (w'.mgr.acceptedBy == "" ==> w'.fanOuts == [])
            && (w'.mgr.acceptedBy != "" && w'.fanOuts == [] ==> forall x :: x in devices ==> x == w'.mgr.acceptedBy)
            && (w'.fanOuts != [] ==> forall x :: x in w'.fanOuts[0] <==> x in devices && x != w'.mgr.acceptedBy)
  {
    var w := After(Start(d, media, devices), run, m);
    FreshFirstWins(d, media, devices, run);
    AlwaysFirstWins(Start(d, media, devices), run, 0, n);
    AlwaysFirstWins(Start(d, media, devices), run, n, m);
    forall x ensures x in Siblings(devices, w.mgr.acceptedBy) <==> x in devices && x != w.mgr.acceptedBy {
      SiblingsAreOthers(devices, w.mgr.acceptedBy, x);
    }
  }

  lemma MovedEnds(m: Manager, t: Transition, now: nat)
    requires m.call.state != Ended
    ensures var c := Moved(m, t, now).call;
            && (c.state == Ended <==> Leads(m.call.state, t, Ended))
            && (c.state == Ended ==> c.endReason == ReasonOf(t) && c.endedAt == Some(now))
  {
  }

  /** In any run, a call that is not over ends exactly when it is ended here, rejected here
      while it rings here, or terminated anonymously, before any answer, or by the device
      that answered; and then for the reason given and at that time. */
  lemma EndedBy(w: World, e: Event, now: nat)
    requires w.relays.Valid() && w.mgr.call.state != Ended
    ensures var c := Step(w, e, now).mgr.call;
            && (c.state == Ended <==>
                  || e.EndHere? || (e.RejectHere? && w.mgr.call.state == IncomingRinging)
                  || (e.Terminates? && (e.from == "" || w.mgr.acceptedBy == "" || w.mgr.acceptedBy == e.from)))
            && (c.state == Ended ==> c.endReason == e.reason && c.endedAt == Some(now))
  {
    match e {
      case AcceptCommits(_) => MovedEnds(w.mgr, RemoteAccepted, now);
      case AcceptFinishes(_) => MovedEnds(w.mgr, MediaConnected, now);
      case AnswerHere => MovedEnds(w.mgr, LocalAccepted, now);
      case RejectHere(reason) => MovedEnds(w.mgr, LocalRejected(reason), now);
      case EndHere(reason) => MovedEnds(w.mgr, Terminated(reason), now);
      case Terminates(_, reason) => MovedEnds(w.mgr, Terminated(reason), now);
      case Holds(_) => MovedEnds(w.mgr, Hold, now);
      case Resumes => MovedEnds(w.mgr, Resume, now);
      case Reports => MovedEnds(w.mgr, MediaConnected, now);
      case _ =>
    }
  }

  /** Any step: the device that answered becomes another exactly when an accept handler
      for that other device, past the first section already, commits. */
  lemma AcceptorChangesIff(w: World, e: Event, now: nat)
    requires w.relays.Valid()
    ensures Step(w, e, now).mgr.acceptedBy != w.mgr.acceptedBy <==>
      e.AcceptCommits? && e.h in w.handlers && w.handlers[e.h].Checked? && w.handlers[e.h].device != w.mgr.acceptedBy
  {
  }

  /** Two accepts handled at once can take the call from each other: both pass the first
      section before either commits, and the second keeps the first one's fan-out, which
      told the second to stop. */
  lemma OverlapStealsCall(now: nat)
    ensures var run := [Timed(AcceptArrives(1, "phone", true), now), Timed(AcceptArrives(2, "tablet", true), now),
                        Timed(AcceptCommits(1), now), Timed(AcceptCommits(2), now)];
            var w := Start(Outgoing, Audio, ["phone", "tablet"]);
            && After(w, run, 3).mgr.acceptedBy == "phone"
            && After(w, run, 4).mgr.acceptedBy == "tablet"
            && After(w, run, 4).fanOuts == [["tablet"]]
  {
    var run := [Timed(AcceptArrives(1, "phone", true), now), Timed(AcceptArrives(2, "tablet", true), now),
                Timed(AcceptCommits(1), now), Timed(AcceptCommits(2), now)];
    var w := Start(Outgoing, Audio, ["phone", "tablet"]);
    assert After(w, run, 0) == w;
    var w1, w2 := After(w, run, 1), After(w, run, 2);
    assert w1.handlers == map[1 := Checked("phone")];
    assert w2.handlers == map[1 := Checked("phone"), 2 := Checked("tablet")];
    assert Siblings(["phone", "tablet"], "phone") == ["tablet"];
    var w3 := After(w, run, 3);
    assert w3.handlers[2] == Checked("tablet");
  }
}
