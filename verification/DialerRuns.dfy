/** All interleavings of enqueuing, taking, dialing and retrying jobs
    (internal/platform/dialer/queue.go, internal/platform/dialer/scheduler.go:216-259). */
module DialerRuns {
  import opened DialerQueue

  // ------------------------------------------------------------------
  // The machine
  // ------------------------------------------------------------------

  /** How far a dispatchCall has come: NextJob took the job, it was dialed, the dial
      failed and was recorded, the callee rings, the AI session starts. */
  datatype Phase = Taken | Dialed | GaveUp | Rang | Started

  datatype Dispatch = Dispatch(id: string, phase: Phase)

  /** The queue, the dispatches that are running, and for each job how often it was
      dialed, when it was last, and its attempt count when it was enqueued. */
  datatype World = World(
    q: Jobs, dispatches: map<nat, Dispatch>, dials: map<string, nat>, dialedAt: map<string, int>, first: map<string, nat>)

  datatype Event =
    | Enqueues(id: string, job: Job)
    | Takes(h: nat, campaignID: string, id: string)
    | Dials(h: nat)
    | DialFails(h: nat)
    | DialWorks(h: nat)
    | AiStarts(h: nat)
    | Greets(h: nat)
    | Retries(h: nat, u: real)

  datatype Timed = Timed(e: Event, now: int)

  predicate At(w: World, h: nat, phase: Phase) {
    h in w.dispatches && w.dispatches[h].phase == phase
  }

  function ToPhase(w: World, h: nat, phase: Phase, status: Status, now: int): World
    requires h in w.dispatches
  {
    var id := w.dispatches[h].id;
    w.(q := Updated(w.q, id, status, now), dispatches := w.dispatches[h := Dispatch(id, phase)])
  }

  function IsAi(q: Jobs, id: string): bool {
    id in q.jobs && q.jobs[id].campaignID in q.campaigns && q.campaigns[q.jobs[id].campaignID].ai
  }

  /** Job ids are fresh; NextJob takes a job in its order, and may be refused its lease. */
  ghost predicate Enabled(w: World, e: Event, now: int) {
    match e
    case Enqueues(id, _) => id !in w.q.jobs
    case Takes(h, campaignID, id) => h !in w.dispatches && IsNext(w.q, campaignID, now, id) && id !in w.q.locks
    case Dials(h) => At(w, h, Taken)
    case DialFails(h) => At(w, h, Dialed)
    case DialWorks(h) => At(w, h, Dialed)
    case AiStarts(h) => At(w, h, Rang)
    case Greets(h) => At(w, h, Started)
    case Retries(h, u) => At(w, h, GaveUp) && Jitter(u)
  }

  ghost function Step(w: World, e: Event, now: int): World {
    if !Enabled(w, e, now) then w
    else
      match e
      case Enqueues(id, job) =>
        w.(q := w.q.(jobs := w.q.jobs[id := job]), dials := w.dials[id := 0], first := w.first[id := job.attempt])
      case Takes(h, _, id) => w.(q := Reserving(w.q, id), dispatches := w.dispatches[h := Dispatch(id, Taken)])
      case Dials(h) =>
        var id := w.dispatches[h].id;
        ToPhase(w, h, Dialed, Dialing, now).(dials := w.dials[id := Count(w, id) + 1], dialedAt := w.dialedAt[id := now])
      case DialFails(h) => ToPhase(w, h, GaveUp, Failed, now)
      case DialWorks(h) =>
        var w' := ToPhase(w, h, Rang, Ringing, now);
        if IsAi(w.q, w.dispatches[h].id) then w' else w'.(dispatches := w.dispatches - {h})
      case AiStarts(h) => ToPhase(w, h, Started, AiStarting, now)
      case Greets(h) => ToPhase(w, h, Started, Greeting, now).(dispatches := w.dispatches - {h})
      case Retries(h, u) => w.(q := Retried(w.q, w.dispatches[h].id, now, u), dispatches := w.dispatches - {h})
  }

  /** A job that is enqueued waits in the queue, never dialed, and nothing else moves. */
  lemma EnqueuedIs(w: World, id: string, job: Job, now: int)
    requires id !in w.q.jobs
    ensures var w' := Step(w, Enqueues(id, job), now);
            && id in w'.q.jobs && w'.q.jobs[id] == job && OthersSame(w.q, w'.q, id)
            && w'.q.locks == w.q.locks && w'.dispatches == w.dispatches
            && Count(w', id) == 0 && id in w'.first && w'.first[id] == job.attempt
  {
  }

  /** So it is taken and dialed once it is its turn. */
  lemma TakenAndDialed(w: World, h: nat, campaignID: string, id: string, t0: int, t1: int)
    requires Enabled(w, Takes(h, campaignID, id), t0)
    ensures var took := Step(w, Takes(h, campaignID, id), t0);
            var dialed := Step(took, Dials(h), t1);
            && id in took.q.jobs && took.q.jobs[id].status == Reserved && id in took.q.locks && Enabled(took, Dials(h), t1)
            && id in dialed.q.jobs && dialed.q.jobs[id].status == Dialing && Count(dialed, id) == Count(w, id) + 1
            && id in dialed.dialedAt && dialed.dialedAt[id] == t1
  {
    UpdatedOthers(Reserving(w.q, id), id, Dialing, t1);
  }

  function Count(w: World, id: string): nat {
    if id in w.dials then w.dials[id] else 0
  }

  ghost function After(w: World, run: seq<Timed>, n: nat): World
    requires n <= |run|
  {
    if n == 0 then w else Step(After(w, run, n - 1), run[n - 1].e, run[n - 1].now)
  }

  function Start(campaigns: map<string, Campaign>): World {
    World(Jobs(map[], campaigns, {}), map[], map[], map[], map[])
  }

  // ------------------------------------------------------------------
  // What every run keeps
  // ------------------------------------------------------------------

  /** The status of a job that is being dispatched. */
  function StatusAt(phase: Phase): Status {
    match phase
    case Taken => Reserved
    case Dialed => Dialing
    case GaveUp => Failed
    case Rang => Ringing
    case Started => AiStarting
  }

  /** A dispatched job has the status of its dispatch, and no other dispatch. */
  ghost predicate Dispatched(w: World) {
    && (forall h :: h in w.dispatches ==>
          w.dispatches[h].id in w.q.jobs && w.q.jobs[w.dispatches[h].id].status == StatusAt(w.dispatches[h].phase))
    && (forall h, h' :: h in w.dispatches && h' in w.dispatches && w.dispatches[h].id == w.dispatches[h'].id ==> h == h')
  }

  /** A waiting job holds no lease. */
  ghost predicate Unleased(w: World) {
    forall id :: id in w.q.locks ==> id in w.q.jobs && !Waiting(w.q.jobs[id].status)
  }

  function MaxAttempts(q: Jobs, j: Job): int {
    if j.campaignID in q.campaigns then q.campaigns[j.campaignID].maxAttempts else j.attempt
  }

  /** A waiting job was dialed once for each attempt counted since it was enqueued; a
      dispatched or finished one at most once more. */
  ghost predicate CountedJob(w: World, id: string)
    requires id in w.q.jobs
  {
    var j := w.q.jobs[id];
    && id in w.first && id in w.dials && w.first[id] <= j.attempt
    && (j.attempt == w.first[id] || j.attempt <= MaxAttempts(w.q, j))
    && w.dials[id] <= j.attempt - w.first[id] + 1
    && (Waiting(j.status) || j.status == Reserved ==> w.dials[id] <= j.attempt - w.first[id])
  }

  ghost predicate Counted(w: World) {
    forall id :: id in w.q.jobs ==> CountedJob(w, id)
  }

  /** Only job `id` may differ. */
  ghost predicate OthersSame(q: Jobs, q': Jobs, id: string) {
    forall other :: other != id ==>
      (other in q.jobs <==> other in q'.jobs) && (other in q.jobs ==> q.jobs[other] == q'.jobs[other])
  }

  lemma MoveDispatch(w: World, w': World, h: nat, phase: Phase)
    requires Dispatched(w) && h in w.dispatches && OthersSame(w.q, w'.q, w.dispatches[h].id)
    requires w'.dispatches == w.dispatches[h := Dispatch(w.dispatches[h].id, phase)]
    requires w.dispatches[h].id in w'.q.jobs && w'.q.jobs[w.dispatches[h].id].status == StatusAt(phase)
    ensures Dispatched(w')
  {
  }

  lemma DropDispatch(w: World, w': World, h: nat)
    requires Dispatched(w) && h in w.dispatches && OthersSame(w.q, w'.q, w.dispatches[h].id)
    requires w'.dispatches == w.dispatches - {h}
    ensures Dispatched(w')
  {
  }

  lemma AddDispatch(w: World, w': World, h: nat, id: string)
    requires Dispatched(w) && h !in w.dispatches && id in w.q.jobs && Waiting(w.q.jobs[id].status)
    requires OthersSame(w.q, w'.q, id) && id in w'.q.jobs && w'.q.jobs[id].status == Reserved
    requires w'.dispatches == w.dispatches[h := Dispatch(id, Taken)]
    ensures Dispatched(w')
  {
    assert forall h' :: h' in w.dispatches ==> w.dispatches[h'].id != id;
  }

  lemma NotDispatched(w: World, w': World, id: string)
    requires Dispatched(w) && id !in w.q.jobs && OthersSame(w.q, w'.q, id) && w'.dispatches == w.dispatches
    ensures Dispatched(w')
  {
    assert forall h :: h in w.dispatches ==> w.dispatches[h].id != id;
  }

  lemma UpdatedOthers(q: Jobs, id: string, status: Status, now: int)
    requires id in q.jobs
    ensures var q' := Updated(q, id, status, now);
            OthersSame(q, q', id) && id in q'.jobs && q'.jobs[id].status == status && q'.campaigns == q.campaigns
  {
  }

  lemma PhaseDispatched(w: World, h: nat, phase: Phase, now: int)
    requires Dispatched(w) && h in w.dispatches
    ensures Dispatched(ToPhase(w, h, phase, StatusAt(phase), now))
  {
    UpdatedOthers(w.q, w.dispatches[h].id, StatusAt(phase), now);
    MoveDispatch(w, ToPhase(w, h, phase, StatusAt(phase), now), h, phase);
  }

  /** The steps of a dispatch that goes on. */
  lemma GoesOnDispatched(w: World, e: Event, now: int)
    requires Dispatched(w) && Enabled(w, e, now) && (e.Dials? || e.DialFails? || e.AiStarts?)
    ensures Dispatched(Step(w, e, now))
  {
    PhaseDispatched(w, e.h, if e.Dials? then Dialed else if e.DialFails? then GaveUp else Started, now);
  }

  lemma WorksDispatched(w: World, e: Event, now: int)
    requires Dispatched(w) && Enabled(w, e, now) && e.DialWorks?
    ensures Dispatched(Step(w, e, now))
  {
    if IsAi(w.q, w.dispatches[e.h].id) {
      PhaseDispatched(w, e.h, Rang, now);
    } else {
      UpdatedOthers(w.q, w.dispatches[e.h].id, Ringing, now);
      DropDispatch(w, Step(w, e, now), e.h);
    }
  }

  lemma EndsDispatched(w: World, e: Event, now: int)
    requires Dispatched(w) && Enabled(w, e, now) && (e.Greets? || e.Retries?)
    ensures Dispatched(Step(w, e, now))
  {
    var id := w.dispatches[e.h].id;
    if e.Greets? {
      UpdatedOthers(w.q, id, Greeting, now);
    } else {
      RetriedOthers(w.q, id, NextAttempt(w.q, id, now, e.u));
    }
    DropDispatch(w, Step(w, e, now), e.h);
  }

  lemma RetriedOthers(q: Jobs, id: string, next: int)
    ensures OthersSame(q, RetriedAt(q, id, next), id) && RetriedAt(q, id, next).campaigns == q.campaigns
  {
  }

  lemma BeginsDispatched(w: World, e: Event, now: int)
    requires Dispatched(w) && Enabled(w, e, now) && (e.Enqueues? || e.Takes?)
    ensures Dispatched(Step(w, e, now))
  {
    if e.Enqueues? {
      NotDispatched(w, Step(w, e, now), e.id);
    } else {
      AddDispatch(w, Step(w, e, now), e.h, e.id);
    }
  }

  lemma StepDispatched(w: World, e: Event, now: int)
    requires Dispatched(w)
    ensures Dispatched(Step(w, e, now))
  {
    if Enabled(w, e, now) {
      if e.Enqueues? || e.Takes? {
        BeginsDispatched(w, e, now);
      } else if e.DialWorks? {
        WorksDispatched(w, e, now);
      } else if e.Greets? || e.Retries? {
        EndsDispatched(w, e, now);
      } else {
        GoesOnDispatched(w, e, now);
      }
    }
  }

  lemma UpdatedUnleased(q: Jobs, id: string, status: Status, now: int)
    requires !Waiting(status) && forall l :: l in q.locks ==> l in q.jobs && !Waiting(q.jobs[l].status)
    ensures var q' := Updated(q, id, status, now); forall l :: l in q'.locks ==> l in q'.jobs && !Waiting(q'.jobs[l].status)
  {
  }

  lemma MoveUnleased(w: World, e: Event, now: int)
    requires Dispatched(w) && Unleased(w) && Enabled(w, e, now)
    requires e.Dials? || e.DialFails? || e.DialWorks? || e.AiStarts? || e.Greets?
    ensures Unleased(Step(w, e, now))
  {
    var status :=
      if e.Dials? then Dialing else if e.DialFails? then Failed
      else if e.DialWorks? then Ringing else if e.AiStarts? then AiStarting else Greeting;
    UpdatedUnleased(w.q, w.dispatches[e.h].id, status, now);
    assert Step(w, e, now).q == Updated(w.q, w.dispatches[e.h].id, status, now);
  }

  lemma StepUnleased(w: World, e: Event, now: int)
    requires Dispatched(w) && Unleased(w)
    ensures Unleased(Step(w, e, now))
  {
    if Enabled(w, e, now) && !(e.Enqueues? || e.Takes? || e.Retries?) {
      MoveUnleased(w, e, now);
    }
  }

  /** A step that only moves job `id`, and counts it right, keeps all counts right. */
  lemma OneCounted(w: World, w': World, id: string)
    requires Counted(w) && OthersSame(w.q, w'.q, id) && w'.q.campaigns == w.q.campaigns
    requires forall other :: other != id && other in w.q.jobs ==>
      other in w'.first && other in w'.dials && w'.first[other] == w.first[other] && w'.dials[other] == w.dials[other]
    requires id in w'.q.jobs ==> CountedJob(w', id)
    ensures Counted(w')
  {
    forall other | other in w'.q.jobs ensures CountedJob(w', other) {
      if other != id {
        assert CountedJob(w, other);
      }
    }
  }

  lemma RetriedCounts(q: Jobs, id: string, next: int)
    requires id in q.jobs && q.jobs[id].status == Failed
    ensures var q' := RetriedAt(q, id, next);
            && OthersSame(q, q', id) && q'.campaigns == q.campaigns && id in q'.jobs
            && q'.jobs[id].campaignID == q.jobs[id].campaignID
            && (if Retriable(q, id) && q.jobs[id].attempt < MaxAttempts(q, q.jobs[id])
                then q'.jobs[id].status == RetryPending && q'.jobs[id].attempt == q.jobs[id].attempt + 1
                else q'.jobs[id].status == Failed && q'.jobs[id].attempt == q.jobs[id].attempt)
  {
  }

  /** A status on the way of a dispatch: nothing is counted. */
  lemma UpdatedCounted(w: World, w': World, id: string, status: Status, now: int)
    requires Counted(w) && id in w.q.jobs && !Waiting(status) && status != Reserved
    requires w'.q == Updated(w.q, id, status, now) && w'.dials == w.dials && w'.first == w.first
    ensures Counted(w') && w'.q.campaigns == w.q.campaigns
  {
    assert CountedJob(w, id);
    UpdatedOthers(w.q, id, status, now);
    OneCounted(w, w', id);
  }

  lemma TakeCounted(w: World, h: nat, campaignID: string, id: string, now: int)
    requires Counted(w) && Enabled(w, Takes(h, campaignID, id), now)
    ensures var w' := Step(w, Takes(h, campaignID, id), now); Counted(w') && w'.q.campaigns == w.q.campaigns
  {
    assert CountedJob(w, id);
    OneCounted(w, Step(w, Takes(h, campaignID, id), now), id);
  }

  lemma DialCounted(w: World, h: nat, now: int)
    requires Dispatched(w) && Counted(w) && At(w, h, Taken)
    ensures var w' := Step(w, Dials(h), now); Counted(w') && w'.q.campaigns == w.q.campaigns
  {
    var id := w.dispatches[h].id;
    assert CountedJob(w, id);
    OneCounted(w, Step(w, Dials(h), now), id);
  }

  lemma RetryCountsJob(w: World, w': World, id: string, next: int)
    requires id in w.q.jobs && w.q.jobs[id].status == Failed && CountedJob(w, id)
    requires w'.q == RetriedAt(w.q, id, next) && w'.dials == w.dials && w'.first == w.first
    ensures id in w'.q.jobs && CountedJob(w', id)
  {
    RetriedCounts(w.q, id, next);
  }

  lemma RetryCounted(w: World, h: nat, u: real, now: int)
    requires Dispatched(w) && Counted(w) && Enabled(w, Retries(h, u), now)
    ensures var w' := Step(w, Retries(h, u), now); Counted(w') && w'.q.campaigns == w.q.campaigns
  {
    var w', id := Step(w, Retries(h, u), now), w.dispatches[h].id;
    var next := NextAttempt(w.q, id, now, u);
    assert CountedJob(w, id);
    RetryCountsJob(w, w', id, next);
    RetriedOthers(w.q, id, next);
    OneCounted(w, w', id);
  }

  lemma FailCounted(w: World, e: Event, now: int)
    requires Dispatched(w) && Counted(w) && Enabled(w, e, now) && (e.DialFails? || e.DialWorks?)
    ensures Counted(Step(w, e, now)) && Step(w, e, now).q.campaigns == w.q.campaigns
  {
    UpdatedCounted(w, Step(w, e, now), w.dispatches[e.h].id, if e.DialFails? then Failed else Ringing, now);
  }

  lemma SessionCounted(w: World, e: Event, now: int)
    requires Dispatched(w) && Counted(w) && Enabled(w, e, now) && (e.AiStarts? || e.Greets?)
    ensures Counted(Step(w, e, now)) && Step(w, e, now).q.campaigns == w.q.campaigns
  {
    UpdatedCounted(w, Step(w, e, now), w.dispatches[e.h].id, if e.AiStarts? then AiStarting else Greeting, now);
  }

  lemma StepCounted(w: World, e: Event, now: int)
    requires Dispatched(w) && Counted(w)
    ensures Counted(Step(w, e, now)) && Step(w, e, now).q.campaigns == w.q.campaigns
  {
    if Enabled(w, e, now) {
      match e {
        case Enqueues(id, job) => OneCounted(w, Step(w, e, now), id);
        case Takes(h, campaignID, id) => TakeCounted(w, h, campaignID, id, now);
        case Dials(h) => DialCounted(w, h, now);
        case Retries(h, u) => RetryCounted(w, h, u, now);
        case AiStarts(_) => SessionCounted(w, e, now);
        case Greets(_) => SessionCounted(w, e, now);
        case _ => FailCounted(w, e, now);
      }
    }
  }

  lemma {:induction false} AlwaysSafe(campaigns: map<string, Campaign>, run: seq<Timed>, n: nat)
    requires n <= |run|
    ensures var w := After(Start(campaigns), run, n);
            Dispatched(w) && Unleased(w) && Counted(w) && w.q.campaigns == campaigns
  {
    if n > 0 {
      AlwaysSafe(campaigns, run, n - 1);
      var w := After(Start(campaigns), run, n - 1);
      StepDispatched(w, run[n - 1].e, run[n - 1].now);
      StepUnleased(w, run[n - 1].e, run[n - 1].now);
      StepCounted(w, run[n - 1].e, run[n - 1].now);
    }
  }

  /** Queue safety, in every interleaving: a waiting job holds no lease and is in no
      dispatch, so NextJob is never refused; no job is in two dispatches; and no job is
      dialed more than once for its first attempt and once for each attempt left to it. */
  lemma QueueSafe(campaigns: map<string, Campaign>, run: seq<Timed>, n: nat)
    requires n <= |run|
    ensures var w := After(Start(campaigns), run, n);
            && (forall id :: id in w.q.jobs && Waiting(w.q.jobs[id].status) ==>
                  id !in w.q.locks && forall h :: h in w.dispatches ==> w.dispatches[h].id != id)
            && (forall campaignID, now, id :: IsNext(w.q, campaignID, now, id) ==> id !in w.q.locks)
            && (forall h, h' :: h in w.dispatches && h' in w.dispatches && h != h' ==> w.dispatches[h].id != w.dispatches[h'].id)
            && (forall id :: id in w.q.jobs && w.q.jobs[id].campaignID in campaigns ==>
                  id in w.first && id in w.dials
                  && w.dials[id] <= AttemptsLeft(campaigns[w.q.jobs[id].campaignID].maxAttempts, w.first[id]) + 1)
  {
    var w := After(Start(campaigns), run, n);
    AlwaysSafe(campaigns, run, n);
    forall id | id in w.q.jobs && w.q.jobs[id].campaignID in campaigns
      ensures id in w.first && id in w.dials
              && w.dials[id] <= AttemptsLeft(campaigns[w.q.jobs[id].campaignID].maxAttempts, w.first[id]) + 1
    {
      assert CountedJob(w, id);
    }
  }

  /** Moving a dispatch moves its job. */
  lemma PhaseMoves(w: World, h: nat, phase: Phase, status: Status, now: int)
    requires h in w.dispatches && w.dispatches[h].id in w.q.jobs
    ensures var w', id := ToPhase(w, h, phase, status, now), w.dispatches[h].id;
            && At(w', h, phase) && w'.dispatches[h].id == id && id in w'.q.jobs
            && w'.q.jobs[id].status == status && IsAi(w'.q, id) == IsAi(w.q, id)
  {
  }

  /** A dial that works: the job rings, and the dispatch goes on in a campaign with an AI. */
  lemma Rings(w: World, h: nat, t0: int, t1: int)
    requires Dispatched(w) && At(w, h, Taken)
    ensures var id, w' := w.dispatches[h].id, Step(Step(w, Dials(h), t0), DialWorks(h), t1);
            && id in w'.q.jobs && w'.q.jobs[id].status == Ringing && (h in w'.dispatches <==> IsAi(w.q, id))
            && (IsAi(w.q, id) ==> At(w', h, Rang) && w'.dispatches[h].id == id)
  {
    PhaseMoves(w, h, Dialed, Dialing, t0);
    PhaseMoves(Step(w, Dials(h), t0), h, Rang, Ringing, t1);
  }

  /** There the session starts, the callee is greeted and the dispatch is over. */
  lemma Session(w: World, h: nat, t0: int, t1: int)
    requires Dispatched(w) && At(w, h, Rang)
    ensures var id, w' := w.dispatches[h].id, Step(Step(w, AiStarts(h), t0), Greets(h), t1);
            id in w'.q.jobs && w'.q.jobs[id].status == Greeting && h !in w'.dispatches
  {
    PhaseMoves(w, h, Started, AiStarting, t0);
    PhaseMoves(Step(w, AiStarts(h), t0), h, Started, Greeting, t1);
  }

  function AttemptsLeft(maxAttempts: int, attempt: nat): nat {
    if maxAttempts <= attempt then 0 else maxAttempts - attempt
  }
}
