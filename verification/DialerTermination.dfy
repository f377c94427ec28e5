/** A campaign whose dials all fail comes to an end
    (internal/platform/dialer/queue.go:109-152, internal/platform/dialer/scheduler.go:231-242). */
module DialerTermination {
  import opened DialerQueue
  import opened DialerRuns

  // ------------------------------------------------------------------
  // A campaign whose dials all fail
  // ------------------------------------------------------------------

  /** The steps of such a campaign. */
  predicate Fruitless(e: Event) {
    e.Takes? || e.Dials? || e.DialFails? || e.Retries?
  }

  ghost predicate Busy(w: World, id: string) {
    exists h :: h in w.dispatches && w.dispatches[h].id == id
  }

  /** The attempts a job has left. */
  function Left(q: Jobs, id: string): nat
    requires id in q.jobs
  {
    if Retriable(q, id) then AttemptsLeft(q.campaigns[q.jobs[id].campaignID].maxAttempts, q.jobs[id].attempt) else 0
  }

  /** A job of such a campaign: it is leased exactly while it is being dialed, its dials
      are exactly counted, and once it is given up it has no attempt left. */
  ghost predicate Doomed(w: World, id: string)
    requires id in w.q.jobs
  {
    var j := w.q.jobs[id];
    && id in w.first && id in w.dials && w.first[id] <= j.attempt
    && (Waiting(j.status) || j.status == Reserved || j.status == Dialing || j.status == Failed)
    && (j.status == Reserved || j.status == Dialing <==> id in w.q.locks)
    && (j.status == Reserved || j.status == Dialing ==> Busy(w, id))
    && w.dials[id] == j.attempt - w.first[id] + (if j.status == Dialing || j.status == Failed then 1 else 0)
    && (j.status == Failed && !Busy(w, id) ==> Left(w.q, id) == 0)
    && (j.attempt == w.first[id] || j.attempt <= MaxAttempts(w.q, j))
  }

  ghost predicate AllDoomed(w: World) {
    && Dispatched(w)
    && (forall id :: id in w.q.locks ==> id in w.q.jobs)
    && forall id :: id in w.q.jobs ==> Doomed(w, id)
  }

  /** Jobs enqueued and not yet touched. */
  ghost predicate AllQueued(w: World) {
    && w.dispatches == map[] && w.q.locks == {}
    && forall id :: id in w.q.jobs ==>
         Waiting(w.q.jobs[id].status) && id in w.first && id in w.dials
         && w.first[id] == w.q.jobs[id].attempt && w.dials[id] == 0
  }

  // ------------------------------------------------------------------
  // What is left to do
  // ------------------------------------------------------------------

  ghost function Stage(w: World, id: string): nat
    requires id in w.q.jobs
  {
    match w.q.jobs[id].status
    case Queued => 4
    case RetryPending => 4
    case Reserved => 3
    case Dialing => 2
    case Failed => if Busy(w, id) then 1 else 0
    case _ => 0
  }

  /** The steps a job has before it, at most. */
  ghost function Rank(w: World, id: string): nat {
    if id in w.q.jobs then 4 * Left(w.q, id) + Stage(w, id) else 0
  }

  ghost function TotalRank(w: World, ids: seq<string>): nat {
    if ids == [] then 0 else Rank(w, ids[0]) + TotalRank(w, ids[1..])
  }

  ghost predicate RankDrops(w: World, w': World, id: string) {
    Rank(w', id) < Rank(w, id) && forall other :: other != id ==> Rank(w', other) == Rank(w, other)
  }

  lemma {:induction false} TotalDrops(w: World, w': World, id: string, ids: seq<string>)
    requires RankDrops(w, w', id)
    ensures TotalRank(w', ids) + (if id in ids then 1 else 0) <= TotalRank(w, ids)
  {
    if ids != [] {
      assert ids == [ids[0]] + ids[1..];
      TotalDrops(w, w', id, ids[1..]);
    }
  }

  /** The jobs and dispatches other than those of `id` are as they were. */
  ghost predicate OnlyFor(w: World, w': World, id: string) {
    && OthersSame(w.q, w'.q, id) && w'.q.campaigns == w.q.campaigns
    && (id in w.q.jobs <==> id in w'.q.jobs)
    && (forall other :: other != id ==> (Busy(w, other) <==> Busy(w', other)))
    && (forall other :: other != id ==> (other in w.q.locks <==> other in w'.q.locks))
    && w'.first == w.first
    && (forall other :: other != id && other in w.dials ==> other in w'.dials && w'.dials[other] == w.dials[other])
  }

  lemma OthersDoomed(w: World, w': World, id: string, other: string)
    requires OnlyFor(w, w', id) && other != id && other in w.q.jobs && Doomed(w, other)
    ensures Doomed(w', other)
  {
  }

  lemma OthersRank(w: World, w': World, id: string, other: string)
    requires OnlyFor(w, w', id) && other != id
    ensures Rank(w', other) == Rank(w, other)
  {
  }

  /** A step for one job that keeps that one doomed and lowers its rank. */
  lemma OneDoomed(w: World, w': World, id: string)
    requires AllDoomed(w) && OnlyFor(w, w', id) && id in w.q.jobs && Dispatched(w')
    requires Doomed(w', id) && Rank(w', id) < Rank(w, id)
    ensures AllDoomed(w') && RankDrops(w, w', id)
  {
    forall other | other in w'.q.jobs ensures Doomed(w', other) {
      if other != id {
        OthersDoomed(w, w', id, other);
      }
    }
    forall other | other != id ensures Rank(w', other) == Rank(w, other) {
      OthersRank(w, w', id, other);
    }
  }

  /** Dispatch `h` changes, for the same job or to nothing. */
  lemma BusyOthers(w: World, w': World, h: nat, id: string)
    requires h in w.dispatches ==> w.dispatches[h].id == id
    requires w'.dispatches == w.dispatches - {h} || exists phase :: w'.dispatches == w.dispatches[h := Dispatch(id, phase)]
    ensures forall other :: other != id ==> (Busy(w, other) <==> Busy(w', other))
  {
    forall other | other != id ensures Busy(w, other) <==> Busy(w', other) {
      if Busy(w, other) {
        var g :| g in w.dispatches && w.dispatches[g].id == other;
        assert g in w'.dispatches && w'.dispatches[g].id == other;
      }
      if Busy(w', other) {
        var g :| g in w'.dispatches && w'.dispatches[g].id == other;
        assert g in w.dispatches && w.dispatches[g].id == other;
      }
    }
  }

  lemma TakeSelf(w: World, h: nat, campaignID: string, id: string, now: int)
    requires Enabled(w, Takes(h, campaignID, id), now) && Doomed(w, id)
    ensures var w' := Step(w, Takes(h, campaignID, id), now);
            id in w'.q.jobs && Doomed(w', id) && Rank(w', id) < Rank(w, id)
  {
    var w' := Step(w, Takes(h, campaignID, id), now);
    assert h in w'.dispatches && Busy(w', id);
    assert w'.q.jobs[id].status == Reserved && w'.q.jobs[id].attempt == w.q.jobs[id].attempt;
  }

  lemma TakeOnlyFor(w: World, h: nat, campaignID: string, id: string, now: int)
    requires Enabled(w, Takes(h, campaignID, id), now)
    ensures OnlyFor(w, Step(w, Takes(h, campaignID, id), now), id)
  {
    BusyOthers(w, Step(w, Takes(h, campaignID, id), now), h, id);
  }

  lemma TakeDoomed(w: World, h: nat, campaignID: string, id: string, now: int)
    requires AllDoomed(w) && Enabled(w, Takes(h, campaignID, id), now)
    ensures var w' := Step(w, Takes(h, campaignID, id), now); AllDoomed(w') && RankDrops(w, w', id)
  {
    StepDispatched(w, Takes(h, campaignID, id), now);
    TakeOnlyFor(w, h, campaignID, id, now);
    TakeSelf(w, h, campaignID, id, now);
    OneDoomed(w, Step(w, Takes(h, campaignID, id), now), id);
  }

  lemma DialSelf(w: World, h: nat, now: int)
    requires Dispatched(w) && At(w, h, Taken) && Doomed(w, w.dispatches[h].id)
    ensures var w', id := Step(w, Dials(h), now), w.dispatches[h].id;
            id in w'.q.jobs && Doomed(w', id) && Rank(w', id) < Rank(w, id)
  {
    var w', id := Step(w, Dials(h), now), w.dispatches[h].id;
    assert h in w'.dispatches && Busy(w', id);
    assert w'.q.jobs[id].status == Dialing && w'.q.jobs[id].attempt == w.q.jobs[id].attempt;
  }

  lemma DialDoomed(w: World, h: nat, now: int)
    requires AllDoomed(w) && At(w, h, Taken)
    ensures var w' := Step(w, Dials(h), now); AllDoomed(w') && RankDrops(w, w', w.dispatches[h].id)
  {
    StepDispatched(w, Dials(h), now);
    StepOnlyFor(w, Dials(h), now);
    DialSelf(w, h, now);
    OneDoomed(w, Step(w, Dials(h), now), w.dispatches[h].id);
  }

  lemma FailSelf(w: World, h: nat, now: int)
    requires Dispatched(w) && At(w, h, Dialed) && Doomed(w, w.dispatches[h].id)
    ensures var w', id := Step(w, DialFails(h), now), w.dispatches[h].id;
            id in w'.q.jobs && Doomed(w', id) && Rank(w', id) < Rank(w, id)
  {
    var w', id := Step(w, DialFails(h), now), w.dispatches[h].id;
    assert h in w'.dispatches && Busy(w', id);
    assert w'.q.jobs[id].status == Failed && w'.q.jobs[id].attempt == w.q.jobs[id].attempt;
  }

  /** What a step does to the other jobs: nothing. */
  lemma StepOnlyFor(w: World, e: Event, now: int)
    requires Dispatched(w) && (e.Dials? || e.DialFails? || e.Retries?) && Enabled(w, e, now)
    ensures OnlyFor(w, Step(w, e, now), w.dispatches[e.h].id)
  {
    BusyOthers(w, Step(w, e, now), e.h, w.dispatches[e.h].id);
  }

  lemma FailDoomed(w: World, h: nat, now: int)
    requires AllDoomed(w) && At(w, h, Dialed)
    ensures var w' := Step(w, DialFails(h), now); AllDoomed(w') && RankDrops(w, w', w.dispatches[h].id)
  {
    var w', id := Step(w, DialFails(h), now), w.dispatches[h].id;
    StepDispatched(w, DialFails(h), now);
    StepOnlyFor(w, DialFails(h), now);
    FailSelf(w, h, now);
    OneDoomed(w, w', id);
  }

  lemma RetrySelf(w: World, h: nat, u: real, now: int)
    requires Dispatched(w) && Enabled(w, Retries(h, u), now) && Doomed(w, w.dispatches[h].id)
    ensures var w', id := Step(w, Retries(h, u), now), w.dispatches[h].id;
            id in w'.q.jobs && Doomed(w', id) && Rank(w', id) < Rank(w, id)
  {
    var w', id := Step(w, Retries(h, u), now), w.dispatches[h].id;
    RetriedCounts(w.q, id, NextAttempt(w.q, id, now, u));
    assert Busy(w, id) && !Busy(w', id);
  }

  lemma RetryDoomed(w: World, h: nat, u: real, now: int)
    requires AllDoomed(w) && Enabled(w, Retries(h, u), now)
    ensures var w' := Step(w, Retries(h, u), now); AllDoomed(w') && RankDrops(w, w', w.dispatches[h].id)
  {
    var w', id := Step(w, Retries(h, u), now), w.dispatches[h].id;
    StepDispatched(w, Retries(h, u), now);
    StepOnlyFor(w, Retries(h, u), now);
    RetrySelf(w, h, u, now);
    OneDoomed(w, w', id);
  }

  lemma SameJobs(w: World, e: Event, now: int)
    requires Dispatched(w) && Fruitless(e)
    ensures var w' := Step(w, e, now);
            w'.q.jobs.Keys == w.q.jobs.Keys && w'.first == w.first && w'.q.campaigns == w.q.campaigns
  {
  }

  /** Every step keeps the campaign doomed and brings exactly one job closer to its end. */
  lemma StepDoomed(w: World, e: Event, now: int) returns (id: string)
    requires AllDoomed(w) && Fruitless(e) && Enabled(w, e, now)
    ensures AllDoomed(Step(w, e, now)) && RankDrops(w, Step(w, e, now), id) && id in w.q.jobs
  {
    id := if e.Takes? then e.id else w.dispatches[e.h].id;
    match e {
      case Takes(h, campaignID, j) => TakeDoomed(w, h, campaignID, j, now);
      case Dials(h) => DialDoomed(w, h, now);
      case DialFails(h) => FailDoomed(w, h, now);
      case Retries(h, u) => RetryDoomed(w, h, u, now);
    }
  }

  // ------------------------------------------------------------------
  // No job is left behind
  // ------------------------------------------------------------------

  lemma {:induction false} LeastPosition(q: Jobs, ids: set<string>) returns (least: string)
    requires ids != {} && ids <= q.jobs.Keys
    ensures least in ids && forall id :: id in ids ==> q.jobs[least].position <= q.jobs[id].position
    decreases |ids|
  {
    var id :| id in ids;
    var rest := ids - {id};
    assert forall j :: j in ids ==> j == id || j in rest;
    least := id;
    if rest != {} {
      var other := LeastPosition(q, rest);
      if q.jobs[other].position <= q.jobs[id].position {
        least := other;
      }
    }
  }

  lemma {:induction false} FreshHandle(hs: set<nat>) returns (h: nat)
    ensures forall g :: g in hs ==> g < h
    decreases |hs|
  {
    h := 0;
    if hs != {} {
      var g :| g in hs;
      var rest := hs - {g};
      h := FreshHandle(rest);
      h := if g < h then h else g + 1;
      assert forall k :: k in hs ==> k == g || k in rest;
    }
  }

  ghost predicate Over(w: World, id: string)
    requires id in w.q.jobs
  {
    w.q.jobs[id].status == Failed && !Busy(w, id)
  }

  /** Unless every job is over, some step is possible, at the latest when every waiting
      job's next attempt is due. */
  lemma SomethingToDo(w: World, id: string, now: int) returns (e: Event)
    requires AllDoomed(w) && id in w.q.jobs && !Over(w, id)
    requires forall j :: j in w.q.jobs ==> w.q.jobs[j].nextAttemptAt < now
    ensures Fruitless(e) && Enabled(w, e, now)
  {
    assert Doomed(w, id);
    if Waiting(w.q.jobs[id].status) {
      var campaignID := w.q.jobs[id].campaignID;
      var eligible := set j | j in w.q.jobs && Eligible(w.q, campaignID, now, j);
      assert id in eligible;
      var next := LeastPosition(w.q, eligible);
      var h := FreshHandle(w.dispatches.Keys);
      assert Doomed(w, next);
      e := Takes(h, campaignID, next);
    } else {
      var h :| h in w.dispatches && w.dispatches[h].id == id;
      e := match w.dispatches[h].phase
        case Taken => Dials(h)
        case Dialed => DialFails(h)
        case _ => Retries(h, 0.0);
    }
  }

  // ------------------------------------------------------------------
  // Every run ends with every job failed
  // ------------------------------------------------------------------

  ghost predicate FruitlessAt(w: World, run: seq<Timed>, k: nat) {
    k < |run| && Fruitless(run[k].e) && Enabled(After(w, run, k), run[k].e, run[k].now)
  }

  ghost predicate FruitlessRun(w: World, run: seq<Timed>, n: nat) {
    n <= |run| && forall k: nat :: k < n ==> FruitlessAt(w, run, k)
  }

  lemma QueuedDoomed(w: World)
    requires AllQueued(w)
    ensures AllDoomed(w)
  {
  }

  /** After `n` steps: still doomed, the same jobs, and at least `n` less to do. */
  ghost predicate Advanced(w: World, w': World, n: nat, ids: seq<string>) {
    && AllDoomed(w') && w'.q.jobs.Keys == w.q.jobs.Keys && w'.first == w.first && w'.q.campaigns == w.q.campaigns
    && TotalRank(w', ids) + n <= TotalRank(w, ids)
  }

  lemma StepAdvances(w: World, before: World, e: Event, now: int, n: nat, ids: seq<string>)
    requires Advanced(w, before, n, ids) && Fruitless(e) && Enabled(before, e, now)
    requires forall id :: id in ids <==> id in w.q.jobs
    ensures Advanced(w, Step(before, e, now), n + 1, ids)
  {
    var id := StepDoomed(before, e, now);
    SameJobs(before, e, now);
    TotalDrops(before, Step(before, e, now), id, ids);
  }

  lemma NoneAdvanced(w: World, ids: seq<string>)
    requires AllQueued(w)
    ensures Advanced(w, w, 0, ids)
  {
    QueuedDoomed(w);
  }

  lemma OneAdvances(w: World, run: seq<Timed>, n: nat, ids: seq<string>)
    requires 0 < n <= |run| && FruitlessAt(w, run, n - 1) && Advanced(w, After(w, run, n - 1), n - 1, ids)
    requires forall id :: id in ids <==> id in w.q.jobs
    ensures Advanced(w, After(w, run, n), n, ids)
  {
    StepAdvances(w, After(w, run, n - 1), run[n - 1].e, run[n - 1].now, n - 1, ids);
  }

  lemma {:induction false} RunDoomed(w: World, run: seq<Timed>, n: nat, ids: seq<string>)
    requires AllQueued(w) && FruitlessRun(w, run, n) && forall id :: id in ids <==> id in w.q.jobs
    ensures Advanced(w, After(w, run, n), n, ids)
  {
    if n == 0 {
      NoneAdvanced(w, ids);
    } else {
      RunDoomed(w, run, n - 1, ids);
      OneAdvances(w, run, n, ids);
    }
  }

  /** Termination.  From any queued jobs, a run whose dials all fail has at most
      TotalRank steps; and when it can go no further, every job is FAILED, unleased and
      in no dispatch, after exactly one dial for its first attempt and one for each
      attempt that was left to it. */
  lemma AllFail(w: World, run: seq<Timed>, n: nat, ids: seq<string>, now: int)
    requires AllQueued(w) && FruitlessRun(w, run, n) && forall id :: id in ids <==> id in w.q.jobs
    requires forall e :: Fruitless(e) ==> !Enabled(After(w, run, n), e, now)
    requires forall j :: j in After(w, run, n).q.jobs ==> After(w, run, n).q.jobs[j].nextAttemptAt < now
    ensures n <= TotalRank(w, ids)
    ensures var w' := After(w, run, n);
            forall id :: id in w.q.jobs ==>
              && id in w'.q.jobs && w'.q.jobs[id].status == Failed && !Busy(w', id) && id !in w'.q.locks
              && id in w'.dials && id in w'.first && (Retriable(w'.q, id) ==> w'.dials[id] == AttemptsFrom(w', id) + 1)
  {
    var w' := After(w, run, n);
    RunDoomed(w, run, n, ids);
    forall id | id in w.q.jobs
      ensures && id in w'.q.jobs && w'.q.jobs[id].status == Failed && !Busy(w', id) && id !in w'.q.locks
              && id in w'.dials && id in w'.first && (Retriable(w'.q, id) ==> w'.dials[id] == AttemptsFrom(w', id) + 1)
    {
      assert Doomed(w', id);
      if !Over(w', id) {
        var e := SomethingToDo(w', id, now);
        assert false;
      }
    }
  }

  /** The attempts a job had left when it was enqueued. */
  function AttemptsFrom(w: World, id: string): nat
    requires Retriable(w.q, id) && id in w.first
  {
    AttemptsLeft(w.q.campaigns[w.q.jobs[id].campaignID].maxAttempts, w.first[id])
  }
}
