/** The dialer's job queue and its leases (internal/platform/dialer/queue.go,
    internal/platform/dialer/reservation.go).  Times are nanoseconds. */
module DialerQueue {
  import Bytes
  import opened Clock

  datatype Status =
    | Queued | Reserved | Dialing | Ringing | Connected | AiStarting | Greeting | Listening | Thinking | Speaking
    | Ended | Completed | Busy | NoAnswer | Failed | RetryPending | Skipped

  datatype Job = Job(
    campaignID: string, position: int, status: Status, attempt: nat, nextAttemptAt: int, startedAt: int, endedAt: int)

  datatype Campaign = Campaign(maxAttempts: int, retryDelaySeconds: int, ai: bool)

  /** The queue, with the leases of its reservation engine. */
  datatype Jobs = Jobs(jobs: map<string, Job>, campaigns: map<string, Campaign>, locks: set<string>)

  predicate Waiting(s: Status) {
    s == Queued || s == RetryPending
  }

  // ------------------------------------------------------------------
  // The delay before a retry
  // ------------------------------------------------------------------

  const TWO63: int := 0x8000_0000_0000_0000

  /** A signed 64-bit integer keeps the low 64 bits. */
  function Int64(n: int): int {
    (n + TWO63) % (2 * TWO63) - TWO63
  }

  function Trunc(x: real): int {
    if x >= 0.0 then x.Floor else -((-x).Floor)
  }

  /** rand.Float64()*2-1, which is never 1. */
  predicate Jitter(u: real) {
    -1.0 <= u < 1.0
  }

  lemma JitterBounds(a: real, u: real)
    requires a >= 0.0 && Jitter(u)
    ensures -a <= u * a <= a
  {
    assert (1.0 - u) * a >= 0.0;
    assert (1.0 + u) * a >= 0.0;
  }

  function BaseDelay(c: Campaign): int {
    if c.retryDelaySeconds <= 0 then 10 else c.retryDelaySeconds
  }

  /** 1 << (attempt - 1): bits shifted out of the word are lost. */
  function Multiplier(attempt: nat): int
    requires attempt >= 1
  {
    if attempt - 1 < 64 then Int64(Bytes.Pow2(attempt - 1)) else 0
  }

  /** The delay in seconds before jitter. */
  function Backoff(c: Campaign, attempt: nat): int
    requires attempt >= 1
  {
    Int64(BaseDelay(c) * Multiplier(attempt))
  }

  /** Whole seconds after a jitter of at most a fifth, `u` being in [-1, 1). */
  function Jittered(secs: int, u: real): int {
    Trunc(secs as real + u * (secs as real * 0.20))
  }

  /** The delay in nanoseconds. */
  function RetryDelay(c: Campaign, attempt: nat, u: real): (d: int)
    requires attempt >= 1
    ensures d >= SECOND
  {
    var d := Int64(Jittered(Backoff(c, attempt), u) * SECOND);
    if d < SECOND then SECOND else d
  }

  // ------------------------------------------------------------------
  // The operations, as functions
  // ------------------------------------------------------------------

  predicate Eligible(q: Jobs, campaignID: string, now: int, id: string) {
    && id in q.jobs && q.jobs[id].campaignID == campaignID
    && Waiting(q.jobs[id].status) && q.jobs[id].nextAttemptAt < now
  }

  /** The job NextJob takes: an eligible one of least position.  Among several, the
      iteration order of the map decides. */
  ghost predicate IsNext(q: Jobs, campaignID: string, now: int, id: string) {
    && Eligible(q, campaignID, now, id)
    && forall other :: Eligible(q, campaignID, now, other) ==> q.jobs[id].position <= q.jobs[other].position
  }

  /** The jobs with a list of others under their ids, the later ones winning. */
  function Enqueued(jobs: map<string, Job>, js: seq<(string, Job)>): map<string, Job>
    decreases |js|
  {
    if js == [] then jobs else Enqueued(jobs[js[0].0 := js[0].1], js[1..])
  }

  function SetStatus(q: Jobs, id: string, status: Status): Jobs
    requires id in q.jobs
  {
    q.(jobs := q.jobs[id := q.jobs[id].(status := status)])
  }

  /** NextJob's reservation of `id`, when it is not leased. */
  function Reserving(q: Jobs, id: string): Jobs
    requires id in q.jobs
  {
    SetStatus(q, id, Reserved).(locks := q.locks + {id})
  }

  predicate Closes(s: Status) {
    s == Completed || s == Failed || s == NoAnswer || s == Busy
  }

  function Updated(q: Jobs, id: string, status: Status, now: int): Jobs {
    if id !in q.jobs then q
    else
      var j := q.jobs[id].(status := status);
      if status == Dialing then q.(jobs := q.jobs[id := j.(startedAt := now)])
      else if Closes(status) then q.(jobs := q.jobs[id := j.(endedAt := now)], locks := q.locks - {id})
      else q.(jobs := q.jobs[id := j])
  }

  predicate Retriable(q: Jobs, id: string) {
    id in q.jobs && q.jobs[id].campaignID in q.campaigns
  }

  /** HandleRetry, with the time of the next attempt. */
  function RetriedAt(q: Jobs, id: string, next: int): Jobs {
    if !Retriable(q, id) then q
    else
      var j := q.jobs[id];
      var j' := if j.attempt < q.campaigns[j.campaignID].maxAttempts
                then j.(attempt := j.attempt + 1, status := RetryPending, nextAttemptAt := next)
                else j.(status := Failed);
      q.(jobs := q.jobs[id := j'], locks := q.locks - {id})
  }

  /** When the next attempt may come: after the delay of its number. */
  function NextAttempt(q: Jobs, id: string, now: int, u: real): int {
    if !Retriable(q, id) then now
    else now + RetryDelay(q.campaigns[q.jobs[id].campaignID], q.jobs[id].attempt + 1, u)
  }

  function Retried(q: Jobs, id: string, now: int, u: real): Jobs {
    RetriedAt(q, id, NextAttempt(q, id, now, u))
  }

  /** A job that is retried may be dialed again exactly once its delay is over. */
  lemma RetryWaits(q: Jobs, id: string, now: int, u: real, t: int)
    requires Retriable(q, id) && q.jobs[id].attempt < q.campaigns[q.jobs[id].campaignID].maxAttempts
    ensures var c := q.campaigns[q.jobs[id].campaignID];
            Eligible(Retried(q, id, now, u), q.jobs[id].campaignID, t, id) <==> t > now + RetryDelay(c, q.jobs[id].attempt + 1, u)
  {
  }

  // ------------------------------------------------------------------
  // What the operations mean for a job
  // ------------------------------------------------------------------

  /** The job that is taken: of this campaign, waiting, due, and no other such comes first. */
  lemma NextIff(q: Jobs, campaignID: string, now: int, id: string)
    ensures Eligible(q, campaignID, now, id) <==>
      && id in q.jobs && q.jobs[id].campaignID == campaignID && q.jobs[id].status in {Queued, RetryPending}
      && q.jobs[id].nextAttemptAt < now
    ensures IsNext(q, campaignID, now, id) ==>
      forall other :: other in q.jobs && Eligible(q, campaignID, now, other) ==> q.jobs[other].position >= q.jobs[id].position
  {
  }

  /** A status is noted, with the time when it starts or ends the call, which gives the
      lease back; no other job is touched. */
  lemma UpdatedIs(q: Jobs, id: string, status: Status, now: int)
    ensures var q', ends := Updated(q, id, status, now), status in {Completed, Failed, NoAnswer, Busy};
            && q'.campaigns == q.campaigns && q'.jobs.Keys == q.jobs.Keys
            && (id !in q.jobs ==> q' == q)
            && (id in q.jobs ==>
                  && q'.locks == (if ends then q.locks - {id} else q.locks)
                  && q'.jobs[id].status == status && q'.jobs[id].attempt == q.jobs[id].attempt
                  && q'.jobs[id].nextAttemptAt == q.jobs[id].nextAttemptAt && q'.jobs[id].position == q.jobs[id].position
                  && q'.jobs[id].startedAt == (if status == Dialing then now else q.jobs[id].startedAt)
                  && q'.jobs[id].endedAt == (if ends then now else q.jobs[id].endedAt))
            && forall other :: other in q.jobs && other != id ==> q'.jobs[other] == q.jobs[other]
  {
  }

  /** A retried job waits again with one more attempt, or has failed; it has no lease. */
  lemma RetriedIs(q: Jobs, id: string, now: int, u: real)
    requires Retriable(q, id)
    ensures var q', c := Retried(q, id, now, u), q.campaigns[q.jobs[id].campaignID];
            && id !in q'.locks && id in q'.jobs && q'.jobs[id].campaignID == q.jobs[id].campaignID
            && (if q.jobs[id].attempt < c.maxAttempts
                then q'.jobs[id].status == RetryPending && q'.jobs[id].attempt == q.jobs[id].attempt + 1
                else q'.jobs[id].status == Failed && q'.jobs[id].attempt == q.jobs[id].attempt)
  {
  }

  /** A job of whose id none is enqueued stays as it was. */
  lemma {:induction false} EnqueuedOthers(jobs: map<string, Job>, js: seq<(string, Job)>, id: string)
    requires forall k :: 0 <= k < |js| ==> js[k].0 != id
    ensures id in Enqueued(jobs, js) <==> id in jobs
    ensures id in jobs ==> Enqueued(jobs, js)[id] == jobs[id]
    decreases |js|
  {
    if js != [] {
      EnqueuedOthers(jobs[js[0].0 := js[0].1], js[1..], id);
    }
  }

  /** The last of an id that is enqueued is there. */
  lemma {:induction false} EnqueuedLast(jobs: map<string, Job>, js: seq<(string, Job)>, k: nat)
    requires k < |js| && forall m :: k < m < |js| ==> js[m].0 != js[k].0
    ensures js[k].0 in Enqueued(jobs, js) && Enqueued(jobs, js)[js[k].0] == js[k].1
    decreases |js|
  {
    var more := jobs[js[0].0 := js[0].1];
    if k == 0 {
      EnqueuedOthers(more, js[1..], js[0].0);
    } else {
      EnqueuedLast(more, js[1..], k - 1);
    }
  }

  // ------------------------------------------------------------------
  // The engines, updated in place
  // ------------------------------------------------------------------

  class InMemReservationEngine {
    var locks: set<string>

    constructor ()
      ensures locks == {}
    {
      locks := {};
    }

    method Reserve(jobID: string) returns (ok: bool)
      modifies this
      ensures ok <==> jobID !in old(locks)
      ensures locks == old(locks) + {jobID}
    {
      if jobID in locks {
        assert locks == locks + {jobID};
        return false;
      }
      locks := locks + {jobID};
      ok := true;
    }

    method Release(jobID: string)
      modifies this
      ensures locks == old(locks) - {jobID}
    {
      locks := locks - {jobID};
    }

    method Commit(jobID: string)
      modifies this
      ensures locks == old(locks) - {jobID}
    {
      Release(jobID);
    }
  }

  datatype Next = NoJob | AlreadyReserved | Got(id: string)

  /** The part of HandleRetry that plans the delay. */
  method PlanDelay(camp: Campaign, attempt: nat, u: real) returns (finalDelay: int)
    requires attempt >= 1
    ensures finalDelay == RetryDelay(camp, attempt, u)
  {
    var baseDelay := camp.retryDelaySeconds;
    if baseDelay <= 0 {
      baseDelay := 10;
    }
    var multiplier := if attempt - 1 < 64 then Int64(Bytes.Pow2(attempt - 1)) else 0;
    assert baseDelay == BaseDelay(camp) && multiplier == Multiplier(attempt);
    var delaySecs := Int64(baseDelay * multiplier);
    assert delaySecs == Backoff(camp, attempt);
    var jitter := delaySecs as real * 0.20;
    var jitterOffset := u * jitter;
    var secs := Trunc(delaySecs as real + jitterOffset);
    assert secs == Jittered(delaySecs, u);
    finalDelay := Int64(secs * SECOND);
    if finalDelay < 1 * SECOND {
      finalDelay := 1 * SECOND;
    }
  }

  class Queue {
    const reservation: InMemReservationEngine
    var jobs: map<string, Job>
    var campaigns: map<string, Campaign>

    function State(): Jobs
      reads this, reservation
    {
      Jobs(jobs, campaigns, reservation.locks)
    }

    constructor (res: InMemReservationEngine)
      ensures reservation == res && State() == Jobs(map[], map[], res.locks)
    {
      reservation := res;
      jobs, campaigns := map[], map[];
    }

    method SaveCampaign(id: string, c: Campaign)
      modifies this
      ensures State() == old(State()).(campaigns := old(campaigns)[id := c])
    {
      campaigns := campaigns[id := c];
    }

    method Enqueue(js: seq<(string, Job)>)
      modifies `jobs
      ensures State() == old(State()).(jobs := Enqueued(old(jobs), js))
    {
      assert js[0..] == js;
      for i := 0 to |js|
        invariant Enqueued(old(jobs), js) == Enqueued(jobs, js[i..])
      {
        assert js[i..][0] == js[i] && js[i..][1..] == js[i + 1..];
        jobs := jobs[js[i].0 := js[i].1];
      }
    }

    /** The scan of NextJob: an eligible job of least position, if there is one. */
    method FindNext(campaignID: string, now: int) returns (next: Next)
      ensures next.NoJob? ==> forall id :: !Eligible(State(), campaignID, now, id)
      ensures next.Got? ==> IsNext(State(), campaignID, now, next.id)
      ensures !next.AlreadyReserved?
    {
      next := NoJob;
      var left := jobs.Keys;
      while left != {}
        invariant left <= jobs.Keys && !next.AlreadyReserved?
        invariant next.NoJob? ==> forall id :: Eligible(State(), campaignID, now, id) ==> id in left
        invariant next.Got? ==> Eligible(State(), campaignID, now, next.id)
        invariant next.Got? ==> forall id :: Eligible(State(), campaignID, now, id) && id !in left ==>
                    jobs[next.id].position <= jobs[id].position
        decreases |left|
      {
        var id :| id in left;
        var j := jobs[id];
        left := left - {id};
        if j.campaignID == campaignID && (j.status == Queued || j.status == RetryPending) {
          if j.nextAttemptAt < now {
            if next.NoJob? || j.position < jobs[next.id].position {
              next := Got(id);
            }
          }
        }
      }
    }

    method NextJob(campaignID: string, now: int) returns (next: Next)
      modifies `jobs, reservation
      ensures next.NoJob? <==> forall id :: !Eligible(old(State()), campaignID, now, id)
      ensures next.Got? ==> IsNext(old(State()), campaignID, now, next.id) && next.id !in old(State()).locks
                            && State() == Reserving(old(State()), next.id)
      ensures !next.Got? ==> State() == old(State())
    {
      next := FindNext(campaignID, now);
      assert State() == old(State());
      if next.NoJob? {
        return;
      }
      var ok := reservation.Reserve(next.id);
      if !ok {
        assert reservation.locks == old(reservation.locks);
        return AlreadyReserved;
      }
      jobs := jobs[next.id := jobs[next.id].(status := Reserved)];
    }

    method UpdateJobStatus(jobID: string, status: Status, now: int) returns (found: bool)
      modifies `jobs, reservation
      ensures found <==> jobID in old(jobs)
      ensures State() == Updated(old(State()), jobID, status, now)
    {
      if jobID !in jobs {
        return false;
      }
      var j := jobs[jobID].(status := status);
      if status == Dialing {
        j := j.(startedAt := now);
      } else if status == Completed || status == Failed || status == NoAnswer || status == Busy {
        j := j.(endedAt := now);
        reservation.Commit(jobID);
      }
      jobs := jobs[jobID := j];
      found := true;
    }

    method HandleRetry(jobID: string, now: int, u: real) returns (found: bool)
      modifies `jobs, reservation
      ensures found <==> jobID in old(jobs) && old(jobs)[jobID].campaignID in campaigns
      ensures State() == Retried(old(State()), jobID, now, u)
    {
      if jobID !in jobs || jobs[jobID].campaignID !in campaigns {
        return false;
      }
      var j, camp := jobs[jobID], campaigns[jobs[jobID].campaignID];
      reservation.Release(jobID);
      if j.attempt < camp.maxAttempts {
        j := j.(attempt := j.attempt + 1, status := RetryPending);
        var finalDelay := PlanDelay(camp, j.attempt, u);
        j := j.(nextAttemptAt := now + finalDelay);
      } else {
        j := j.(status := Failed);
      }
      jobs := jobs[jobID := j];
      found := true;
    }
  }
}
