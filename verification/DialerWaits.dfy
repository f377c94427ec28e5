/** How long a job waits between its dials
    (internal/platform/dialer/queue.go:57-152, internal/platform/dialer/scheduler.go:216-259). */
module DialerWaits {
  import opened Bytes
  import opened Clock
  import opened DialerQueue
  import opened DialerRuns
  import opened RetryDelays

  function Since(run: seq<Timed>, n: nat): int
    requires 0 < n <= |run|
  {
    run[n - 1].now
  }

  /** The clock never goes back. */
  predicate Monotone(run: seq<Timed>) {
    forall k: nat :: 0 < k < |run| ==> Since(run, k) <= Since(run, k + 1)
  }

  /** `t` is later than `from` by at least the delay of the job's attempt, with some jitter. */
  ghost predicate Spaced(q: Jobs, j: Job, from: int, t: int) {
    j.campaignID in q.campaigns && j.attempt >= 1 && exists u :: SpacedBy(q.campaigns[j.campaignID], j.attempt, from, t, u)
  }

  predicate SpacedBy(c: Campaign, attempt: nat, from: int, t: int, u: real)
    requires attempt >= 1
  {
    Jitter(u) && t >= from + RetryDelay(c, attempt, u)
  }

  /** A job that was dialed before, until it is dialed again. */
  ghost predicate WaitsJob(w: World, id: string, now: int)
    requires id in w.q.jobs
  {
    var j := w.q.jobs[id];
    && id in w.dialedAt && w.dialedAt[id] <= now && j.status != Queued
    && (j.status == RetryPending || j.status == Reserved ==> Spaced(w.q, j, w.dialedAt[id], j.nextAttemptAt))
    && (j.status == Reserved ==> j.nextAttemptAt < now)
  }

  ghost predicate Waits(w: World, now: int) {
    forall id :: id in w.q.jobs && Count(w, id) > 0 ==> WaitsJob(w, id, now)
  }

  /** Time passes, and only job `id` may differ. */
  lemma OthersWait(w: World, w': World, id: string, before: int, now: int)
    requires Waits(w, before) && before <= now && OthersSame(w.q, w'.q, id) && w'.q.campaigns == w.q.campaigns
    requires forall other :: other != id ==> Count(w', other) == Count(w, other)
    requires forall other :: other != id && other in w.dialedAt ==> other in w'.dialedAt && w'.dialedAt[other] == w.dialedAt[other]
    requires id in w'.q.jobs && Count(w', id) > 0 ==> WaitsJob(w', id, now)
    ensures Waits(w', now)
  {
    forall other | other in w'.q.jobs && Count(w', other) > 0 ensures WaitsJob(w', other, now) {
      if other != id {
        assert WaitsJob(w, other, before);
      }
    }
  }

  lemma TakeWaits(w: World, h: nat, campaignID: string, id: string, before: int, now: int)
    requires Waits(w, before) && before <= now && Enabled(w, Takes(h, campaignID, id), now)
    ensures Waits(Step(w, Takes(h, campaignID, id), now), now)
  {
    var w' := Step(w, Takes(h, campaignID, id), now);
    if Count(w', id) > 0 {
      assert WaitsJob(w, id, before);
      assert Spaced(w.q, w.q.jobs[id], w.dialedAt[id], w.q.jobs[id].nextAttemptAt);
      var u :| SpacedBy(w.q.campaigns[campaignID], w.q.jobs[id].attempt, w.dialedAt[id], w.q.jobs[id].nextAttemptAt, u);
      assert SpacedBy(w'.q.campaigns[campaignID], w'.q.jobs[id].attempt, w'.dialedAt[id], w'.q.jobs[id].nextAttemptAt, u);
    }
    OthersWait(w, w', id, before, now);
  }

  lemma EnqueueWaits(w: World, id: string, job: Job, before: int, now: int)
    requires Waits(w, before) && before <= now && Enabled(w, Enqueues(id, job), now)
    ensures Waits(Step(w, Enqueues(id, job), now), now)
  {
    OthersWait(w, Step(w, Enqueues(id, job), now), id, before, now);
  }

  /** A status on the way of a dispatch, in which nothing is waited for. */
  lemma UpdatedWaits(w: World, w': World, id: string, status: Status, before: int, now: int)
    requires Waits(w, before) && before <= now && id in w.q.jobs && !Waiting(status) && status != Reserved
    requires w'.q == Updated(w.q, id, status, now) && w'.dials == w.dials && w'.dialedAt == w.dialedAt
    ensures Waits(w', now)
  {
    UpdatedOthers(w.q, id, status, now);
    if Count(w, id) > 0 {
      assert WaitsJob(w, id, before);
    }
    OthersWait(w, w', id, before, now);
  }

  lemma DialWaits(w: World, h: nat, before: int, now: int)
    requires Dispatched(w) && Waits(w, before) && before <= now && Enabled(w, Dials(h), now)
    ensures Waits(Step(w, Dials(h), now), now)
  {
    var id := w.dispatches[h].id;
    UpdatedOthers(w.q, id, Dialing, now);
    OthersWait(w, Step(w, Dials(h), now), id, before, now);
  }

  lemma MoveWaits(w: World, e: Event, before: int, now: int)
    requires Dispatched(w) && Waits(w, before) && before <= now && Enabled(w, e, now)
    requires e.DialFails? || e.DialWorks? || e.AiStarts? || e.Greets?
    ensures Waits(Step(w, e, now), now)
  {
    var status := if e.DialFails? then Failed else if e.DialWorks? then Ringing else if e.AiStarts? then AiStarting else Greeting;
    UpdatedWaits(w, Step(w, e, now), w.dispatches[e.h].id, status, before, now);
  }

  lemma RetryWaitsLong(w: World, h: nat, u: real, before: int, now: int)
    requires Dispatched(w) && Waits(w, before) && before <= now && Enabled(w, Retries(h, u), now)
    ensures Waits(Step(w, Retries(h, u), now), now)
  {
    var w', id := Step(w, Retries(h, u), now), w.dispatches[h].id;
    var j := w'.q.jobs[id];
    RetriedOthers(w.q, id, NextAttempt(w.q, id, now, u));
    if Count(w, id) > 0 {
      assert WaitsJob(w, id, before);
      if j.status == RetryPending {
        assert SpacedBy(w'.q.campaigns[j.campaignID], j.attempt, w'.dialedAt[id], j.nextAttemptAt, u);
      }
    }
    OthersWait(w, w', id, before, now);
  }

  lemma StepWaits(w: World, e: Event, before: int, now: int)
    requires Dispatched(w) && Waits(w, before) && before <= now
    ensures Waits(Step(w, e, now), now)
  {
    if Enabled(w, e, now) {
      match e {
        case Enqueues(id, job) => EnqueueWaits(w, id, job, before, now);
        case Takes(h, campaignID, id) => TakeWaits(w, h, campaignID, id, before, now);
        case Dials(h) => DialWaits(w, h, before, now);
        case Retries(h, u) => RetryWaitsLong(w, h, u, before, now);
        case _ => MoveWaits(w, e, before, now);
      }
    } else {
      forall id | id in w.q.jobs && Count(w, id) > 0 ensures WaitsJob(w, id, now) {
        assert WaitsJob(w, id, before);
      }
    }
  }

  lemma {:induction false} AlwaysWaits(campaigns: map<string, Campaign>, run: seq<Timed>, n: nat)
    requires 0 < n <= |run| && Monotone(run)
    ensures Waits(After(Start(campaigns), run, n), Since(run, n))
  {
    var w := After(Start(campaigns), run, n - 1);
    AlwaysSafe(campaigns, run, n - 1);
    if n == 1 {
      StepWaits(w, run[0].e, run[0].now, run[0].now);
    } else {
      AlwaysWaits(campaigns, run, n - 1);
      assert Since(run, n - 1) <= Since(run, n - 1 + 1);
      StepWaits(w, run[n - 1].e, Since(run, n - 1), run[n - 1].now);
    }
  }

  /** Every interleaving: a job that was dialed before is dialed again only later than its
      last dial by more than the delay of the attempt, with some jitter. */
  lemma DialsApart(campaigns: map<string, Campaign>, run: seq<Timed>, n: nat) returns (u: real)
    requires n < |run| && Monotone(run) && run[n].e.Dials?
    requires Enabled(After(Start(campaigns), run, n), run[n].e, run[n].now)
    requires var w := After(Start(campaigns), run, n); Count(w, w.dispatches[run[n].e.h].id) > 0
    ensures var w := After(Start(campaigns), run, n);
            var id := w.dispatches[run[n].e.h].id;
            && id in w.q.jobs && id in w.dialedAt && Jitter(u)
            && w.q.jobs[id].campaignID in campaigns && w.q.jobs[id].attempt >= 1
            && run[n].now > w.dialedAt[id] + RetryDelay(campaigns[w.q.jobs[id].campaignID], w.q.jobs[id].attempt, u)
  {
    var w := After(Start(campaigns), run, n);
    var id := w.dispatches[run[n].e.h].id;
    AlwaysSafe(campaigns, run, n);
    AlwaysWaits(campaigns, run, n);
    assert WaitsJob(w, id, Since(run, n)) && Since(run, n) <= Since(run, n + 1);
    var j := w.q.jobs[id];
    assert Spaced(w.q, j, w.dialedAt[id], j.nextAttemptAt);
    u :| SpacedBy(w.q.campaigns[j.campaignID], j.attempt, w.dialedAt[id], j.nextAttemptAt, u);
  }

  /** So it waits at least four fifths of the base delay, doubled with every attempt, less
      a second, as long as that is in range. */
  lemma BackoffKept(campaigns: map<string, Campaign>, run: seq<Timed>, n: nat)
    requires n < |run| && Monotone(run) && run[n].e.Dials?
    requires Enabled(After(Start(campaigns), run, n), run[n].e, run[n].now)
    requires var w := After(Start(campaigns), run, n); Count(w, w.dispatches[run[n].e.h].id) > 0
    ensures var w := After(Start(campaigns), run, n);
            var id := w.dispatches[run[n].e.h].id;
            && id in w.q.jobs && id in w.dialedAt && w.q.jobs[id].campaignID in campaigns && w.q.jobs[id].attempt >= 1
            && var c, attempt := campaigns[w.q.jobs[id].campaignID], w.q.jobs[id].attempt;
            && run[n].now > w.dialedAt[id] + 1_000_000_000
            && (InRange(c, attempt) ==>
                  5 * (run[n].now - w.dialedAt[id]) > (4 * (BaseDelay(c) * Pow2(attempt - 1)) - 5) * 1_000_000_000)
  {
    var u := DialsApart(campaigns, run, n);
    var w := After(Start(campaigns), run, n);
    var j := w.q.jobs[w.dispatches[run[n].e.h].id];
    var c := campaigns[j.campaignID];
    if InRange(c, j.attempt) {
      DelayIs(c, j.attempt, u);
      JitteredBounds(RawDelay(c, j.attempt), u);
    }
  }
}
