/** The circuit breaker of the dialer's providers
    (internal/platform/dialer/orchestration.go:161-223).  Times are nanoseconds. */
module CircuitBreaker {

  import opened Clock

  datatype State = Closed | Open | HalfOpen

  /** The breaker of one provider; a provider not seen yet is closed. */
  datatype Breaker = Breaker(failures: nat, lastFailure: int, state: State)

  const UNSEEN: Breaker := Breaker(0, 0, Closed)

  datatype Config = Config(threshold: int, cooldownSecs: int)

  predicate CooledDown(b: Breaker, c: Config, now: int) {
    now - b.lastFailure > c.cooldownSecs * SECOND
  }

  predicate Refuses(b: Breaker, c: Config, now: int) {
    b.state == Open && !CooledDown(b, c, now)
  }

  function Checked(b: Breaker, c: Config, now: int): Breaker {
    if b.state == Open && CooledDown(b, c, now) then b.(state := HalfOpen) else b
  }

  function Succeeded(b: Breaker): Breaker {
    b.(failures := 0, state := Closed)
  }

  function Failed(b: Breaker, c: Config, now: int): Breaker {
    Breaker(b.failures + 1, now, if b.failures + 1 >= c.threshold then Open else b.state)
  }

  class CircuitBreakers {
    var failures: map<string, nat>
    var lastFailure: map<string, int>
    var state: map<string, State>
    const threshold: int
    const cooldownSecs: int

    function Of(provider: string): Breaker
      reads this
    {
      Breaker(if provider in failures then failures[provider] else 0,
              if provider in lastFailure then lastFailure[provider] else 0,
              if provider in state then state[provider] else Closed)
    }

    function Settings(): Config {
      Config(threshold, cooldownSecs)
    }

    constructor (threshold: int, cooldown: int)
      ensures Settings() == Config(threshold, cooldown) && forall p :: Of(p) == UNSEEN
    {
      failures, lastFailure, state := map[], map[], map[];
      this.threshold, cooldownSecs := threshold, cooldown;
    }

    method Check(providerName: string, now: int) returns (ok: bool)
      modifies this
      ensures ok <==> !Refuses(old(Of(providerName)), Settings(), now)
      ensures Of(providerName) == Checked(old(Of(providerName)), Settings(), now)
      ensures forall p :: p != providerName ==> Of(p) == old(Of(p))
    {
      if providerName !in state {
        state := state[providerName := Closed];
      }
      if state[providerName] == Open {
        var last := if providerName in lastFailure then lastFailure[providerName] else 0;
        if now - last > cooldownSecs * SECOND {
          state := state[providerName := HalfOpen];
          return true;
        }
        return false;
      }
      ok := true;
    }

    method RecordSuccess(providerName: string)
      modifies this
      ensures Of(providerName) == Succeeded(old(Of(providerName)))
      ensures forall p :: p != providerName ==> Of(p) == old(Of(p))
    {
      failures := failures[providerName := 0];
      state := state[providerName := Closed];
    }

    method RecordFailure(providerName: string, now: int)
      modifies this
      ensures Of(providerName) == Failed(old(Of(providerName)), Settings(), now)
      ensures forall p :: p != providerName ==> Of(p) == old(Of(p))
    {
      failures := failures[providerName := (if providerName in failures then failures[providerName] else 0) + 1];
      lastFailure := lastFailure[providerName := now];
      if failures[providerName] >= threshold {
        state := state[providerName := Open];
      }
    }
  }

  /** A check that lets an open breaker through leaves it half open; no other changes it. */
  lemma CheckedIs(b: Breaker, c: Config, now: int)
    ensures Checked(b, c, now).failures == b.failures && Checked(b, c, now).lastFailure == b.lastFailure
    ensures Checked(b, c, now).state
         == if b.state == Open && now > b.lastFailure + c.cooldownSecs * 1_000_000_000 then HalfOpen else b.state
  {
  }

  // ------------------------------------------------------------------
  // The breaker as a function of its history
  // ------------------------------------------------------------------

  datatype Kind = Check | Success | Failure

  datatype Event = Event(provider: string, kind: Kind, now: int)

  predicate Monotone(run: seq<Event>) {
    forall i, j :: 0 <= i < j < |run| ==> run[i].now <= run[j].now
  }

  /** The breaker of `p` after the first `n` events, of whatever providers. */
  function After(c: Config, run: seq<Event>, n: nat, p: string): Breaker
    requires n <= |run|
  {
    if n == 0 then UNSEEN
    else
      var b, e := After(c, run, n - 1, p), run[n - 1];
      if e.provider != p then b
      else match e.kind
        case Check => Checked(b, c, e.now)
        case Success => Succeeded(b)
        case Failure => Failed(b, c, e.now)
  }

  /** The failures of `p` since its last success. */
  function FailuresSince(run: seq<Event>, n: nat, p: string): nat
    requires n <= |run|
  {
    if n == 0 then 0
    else if run[n - 1].provider != p || run[n - 1].kind == Check then FailuresSince(run, n - 1, p)
    else if run[n - 1].kind == Success then 0
    else FailuresSince(run, n - 1, p) + 1
  }

  /** The place of the latest failure of `p`, or -1. */
  function LatestFailure(run: seq<Event>, n: nat, p: string): (k: int)
    requires n <= |run|
    ensures -1 <= k < n
  {
    if n == 0 then -1
    else if run[n - 1].provider == p && run[n - 1].kind == Failure then n - 1
    else LatestFailure(run, n - 1, p)
  }

  /** A threshold below one works as one: only a failure opens the breaker. */
  function Threshold(c: Config): int {
    if c.threshold < 1 then 1 else c.threshold
  }

  function Now(run: seq<Event>, n: nat): int
    requires n <= |run|
  {
    if n == 0 then 0 else run[n - 1].now
  }

  ghost predicate Remembers(c: Config, run: seq<Event>, n: nat, p: string)
    requires n <= |run|
  {
    var b, k := After(c, run, n, p), LatestFailure(run, n, p);
    && b.failures == FailuresSince(run, n, p)
    && (b.failures > 0 ==> k >= 0)
    && (k >= 0 ==> b.lastFailure == run[k].now)
    && (b.state == Closed <==> b.failures < Threshold(c))
    && (b.state == HalfOpen ==> CooledDown(b, c, Now(run, n)))
  }

  lemma {:induction false} AlwaysRemembers(c: Config, run: seq<Event>, n: nat, p: string)
    requires Monotone(run) && n <= |run|
    ensures Remembers(c, run, n, p)
  {
    if n > 0 {
      AlwaysRemembers(c, run, n - 1, p);
      assert n > 1 ==> run[n - 2].now <= run[n - 1].now;
    }
  }

  /** For every run of checks, successes and failures of any providers under a clock that
      does not go back: a check is refused if and only if the failures since the last
      success have reached the threshold and the latest is no more than the cooldown ago. */
  lemma RefusesIff(c: Config, run: seq<Event>, p: string, now: int)
    requires Monotone(run) && Now(run, |run|) <= now
    ensures Refuses(After(c, run, |run|, p), c, now) <==>
      && FailuresSince(run, |run|, p) >= Threshold(c)
      && LatestFailure(run, |run|, p) >= 0
      && now - run[LatestFailure(run, |run|, p)].now <= c.cooldownSecs * SECOND
  {
    AlwaysRemembers(c, run, |run|, p);
  }
}
