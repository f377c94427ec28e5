/** The job engine's state machine and its idempotency registry
    (internal/platform/dialer/orchestration.go:31-159). */
module JobEngine {
  import opened Wrappers

  // ------------------------------------------------------------------
  // Job states
  // ------------------------------------------------------------------

  datatype JobState = Created | Queued | Running | Paused | Draining | Completed | Partial | Failed | Cancelled

  predicate Moves(from: JobState, to: JobState) {
    match from
    case Created => to == Queued || to == Cancelled
    case Queued => to == Running || to == Cancelled
    case Running => to == Paused || to == Draining || to == Completed || to == Partial || to == Failed
    case Paused => to == Running || to == Cancelled
    case Draining => to == Completed || to == Failed
    case _ => false
  }

  datatype ExecutionJob = ExecutionJob(
    tenantID: string, idempotencyKey: string, state: JobState, createdAt: int, updatedAt: int)

  class JobStateMachine {
    var jobs: map<string, ExecutionJob>

    constructor ()
      ensures jobs == map[]
    {
      jobs := map[];
    }

    method CreateJob(id: string, tenantID: string, idempotencyKey: string, now: int)
      modifies this
      ensures jobs == old(jobs)[id := ExecutionJob(tenantID, idempotencyKey, Created, now, now)]
    {
      jobs := jobs[id := ExecutionJob(tenantID, idempotencyKey, Created, now, now)];
    }

    method Transition(id: string, to: JobState, now: int) returns (ok: bool)
      modifies this
      ensures ok <==> id in old(jobs) && Moves(old(jobs)[id].state, to)
      ensures jobs == if ok then old(jobs)[id := old(jobs)[id].(state := to, updatedAt := now)] else old(jobs)
    {
      if id !in jobs {
        return false;
      }
      var valid := false;
      match jobs[id].state {
        case Created => valid := to == Queued || to == Cancelled;
        case Queued => valid := to == Running || to == Cancelled;
        case Running =>
          valid := to == Paused || to == Draining || to == Completed || to == Partial || to == Failed;
        case Paused => valid := to == Running || to == Cancelled;
        case Draining => valid := to == Completed || to == Failed;
        case _ =>
      }
      if !valid {
        return false;
      }
      jobs := jobs[id := jobs[id].(state := to, updatedAt := now)];
      ok := true;
    }
  }

  /** How a job can come to each state. */
  lemma MovesIff(from: JobState, to: JobState)
    ensures Moves(from, to) <==>
      match to
      case Created => false
      case Queued => from == Created
      case Running => from == Queued || from == Paused
      case Paused => from == Running
      case Draining => from == Running
      case Completed => from == Running || from == Draining
      case Partial => from == Running
      case Failed => from == Running || from == Draining
      case Cancelled => from == Created || from == Queued || from == Paused
  {
  }

  /** The job after the first `n` requested moves; refused ones are skipped. */
  function StateAfter(moves: seq<JobState>, n: nat): JobState
    requires n <= |moves|
  {
    if n == 0 then Created
    else if Moves(StateAfter(moves, n - 1), moves[n - 1]) then moves[n - 1]
    else StateAfter(moves, n - 1)
  }

  predicate Final(s: JobState) {
    s == Completed || s == Partial || s == Failed || s == Cancelled
  }

  /** A final state is never left, and no other state is stuck. */
  lemma {:induction false} FinalStays(moves: seq<JobState>, n: nat, m: nat)
    requires n <= m <= |moves|
    ensures Final(StateAfter(moves, n)) ==> StateAfter(moves, m) == StateAfter(moves, n)
    ensures !Final(StateAfter(moves, n)) ==> exists to :: Moves(StateAfter(moves, n), to)
  {
    if m > n {
      FinalStays(moves, n, m - 1);
    } else {
      var s := StateAfter(moves, n);
      var to := if s == Created then Queued else if s == Queued then Running else if s == Running then Failed
                else if s == Paused then Running else Failed;
      assert !Final(s) ==> Moves(s, to);
    }
  }

  /** The state in which the last accepted move of the first `n` was made. */
  predicate WasRunning(moves: seq<JobState>, n: nat)
    requires n <= |moves|
  {
    n > 0 && (StateAfter(moves, n) == Running || WasRunning(moves, n - 1))
  }

  /** In any run, a job that reached any state but CREATED, QUEUED and CANCELLED has run. */
  lemma {:induction false} EndsOnlyAfterRunning(moves: seq<JobState>, n: nat)
    requires n <= |moves|
    ensures WasRunning(moves, n) || StateAfter(moves, n) in {Created, Queued, Cancelled}
  {
    if n > 0 {
      EndsOnlyAfterRunning(moves, n - 1);
    }
  }

  // ------------------------------------------------------------------
  // Idempotency keys
  // ------------------------------------------------------------------

  datatype Request = Request(tenantID: string, key: string, jobID: string)

  function ScopedKey(tenantID: string, key: string): string {
    tenantID + ":" + key
  }

  class IdempotencyRegistry {
    var keys: map<string, string>

    constructor ()
      ensures keys == map[]
    {
      keys := map[];
    }

    method CheckOrRegister(tenantID: string, key: string, jobID: string) returns (id: string, blocked: bool)
      modifies this
      ensures var k := ScopedKey(tenantID, key);
              if key == "" then id == jobID && !blocked && keys == old(keys)
              else if k in old(keys) then id == old(keys)[k] && blocked && keys == old(keys)
              else id == jobID && !blocked && keys == old(keys)[k := jobID]
    {
      if key == "" {
        return jobID, false;
      }
      var scopedKey := tenantID + ":" + key;
      if scopedKey in keys {
        return keys[scopedKey], true;
      }
      keys := keys[scopedKey := jobID];
      return jobID, false;
    }
  }

  function Registered(keys: map<string, string>, r: Request): map<string, string> {
    var k := ScopedKey(r.tenantID, r.key);
    if r.key == "" || k in keys then keys else keys[k := r.jobID]
  }

  function KeysAfter(rs: seq<Request>, n: nat): map<string, string>
    requires n <= |rs|
  {
    if n == 0 then map[] else Registered(KeysAfter(rs, n - 1), rs[n - 1])
  }

  /** The id `t'` is `t`, a colon and possibly more. */
  predicate Extends(t': string, t: string) {
    t + ":" <= t'
  }

  /** Two different tenants of which neither extends the other share no key. */
  predicate Separate(t: string, t': string) {
    t != t' ==> !Extends(t, t') && !Extends(t', t)
  }

  /** If two tenants share a key, the longer id extends the shorter. */
  lemma SharedKeyExtends(t: string, k: string, t': string, k': string)
    requires ScopedKey(t, k) == ScopedKey(t', k') && |t| <= |t'|
    ensures if |t| == |t'| then t == t' && k == k' else Extends(t', t)
  {
    var s := ScopedKey(t, k);
    assert s[..|t|] == t && s[|t|] == ':' && s[|t| + 1..] == k;
    assert s[..|t'|] == t' && s[|t'| + 1..] == k';
    assert s[..|t|] == t'[..|t|];
    if |t| < |t'| {
      assert t'[|t|] == s[|t|];
      assert t'[..|t| + 1] == t + ":";
    }
  }

  /** Separate tenants share no key, and no tenant uses one key for two. */
  lemma ScopedKeyInjective(t: string, k: string, t': string, k': string)
    requires Separate(t, t') && ScopedKey(t, k) == ScopedKey(t', k')
    ensures t == t' && k == k'
  {
    if |t| <= |t'| {
      SharedKeyExtends(t, k, t', k');
    } else {
      SharedKeyExtends(t', k', t, k);
    }
  }

  /** Two tenants can take each other's key. */
  ghost predicate Collide(t: string, t': string) {
    exists k: string, k': string :: k != "" && k' != "" && ScopedKey(t, k) == ScopedKey(t', k')
  }

  lemma ExtensionCollides(t: string, t': string)
    requires Extends(t', t)
    ensures Collide(t, t') && Collide(t', t)
  {
    var rest := t'[|t| + 1..];
    assert t' == t + ":" + rest;
    var k := rest + ":k";
    assert ScopedKey(t, k) == t + ":" + (rest + ":k") == (t + ":" + rest) + ":k";
    assert ScopedKey(t', "k") == t' + ":k" == ScopedKey(t, k);
  }

  /** Two different tenants collide exactly when one id extends the other by a colon. */
  lemma TenantsCollideIff(t: string, t': string)
    requires t != t'
    ensures Collide(t, t') <==> Extends(t, t') || Extends(t', t)
  {
    if Collide(t, t') {
      var k: string, k': string :| k != "" && k' != "" && ScopedKey(t, k) == ScopedKey(t', k');
      if Separate(t, t') {
        ScopedKeyInjective(t, k, t', k');
      }
    }
    if Extends(t, t') {
      ExtensionCollides(t', t);
    }
    if Extends(t', t) {
      ExtensionCollides(t, t');
    }
  }

  /** So a colon alone is not enough. */
  lemma TenantsCollide()
    ensures ScopedKey("a:b", "c") == ScopedKey("a", "b:c")
    ensures Collide("a:b", "a") && !Collide("a:b", "c")
  {
    assert ScopedKey("a:b", "c") == "a:b:c" == ScopedKey("a", "b:c");
    TenantsCollideIff("a:b", "a");
    TenantsCollideIff("a:b", "c");
    assert "a" + ":" == "a:b"[..2];
    assert ("c" + ":")[0] != "a:b"[0];
  }

  /** The job of the first of the first `n` requests with this tenant and key. */
  function FirstJob(rs: seq<Request>, n: nat, tenantID: string, key: string): Option<string>
    requires n <= |rs|
  {
    if n == 0 then None
    else
      var before := FirstJob(rs, n - 1, tenantID, key);
      if before.Some? then before
      else if rs[n - 1].tenantID == tenantID && rs[n - 1].key == key then Some(rs[n - 1].jobID)
      else None
  }

  function LookUp(keys: map<string, string>, k: string): Option<string> {
    if k in keys then Some(keys[k]) else None
  }

  lemma {:induction false} FirstJobIff(rs: seq<Request>, n: nat, tenantID: string, key: string)
    requires n <= |rs|
    ensures FirstJob(rs, n, tenantID, key).Some? <==>
      exists j :: 0 <= j < n && rs[j].tenantID == tenantID && rs[j].key == key
  {
    if n > 0 {
      FirstJobIff(rs, n - 1, tenantID, key);
    }
  }

  lemma {:induction false} HeldIsFirst(rs: seq<Request>, n: nat, tenantID: string, key: string)
    requires n <= |rs| && key != ""
    requires forall j :: 0 <= j < n ==> Separate(rs[j].tenantID, tenantID)
    ensures LookUp(KeysAfter(rs, n), ScopedKey(tenantID, key)) == FirstJob(rs, n, tenantID, key)
  {
    if n > 0 {
      HeldIsFirst(rs, n - 1, tenantID, key);
      var last := rs[n - 1];
      if ScopedKey(last.tenantID, last.key) == ScopedKey(tenantID, key) {
        ScopedKeyInjective(last.tenantID, last.key, tenantID, key);
      }
    }
  }

  /** For any sequence of requests in which no other tenant extends this one by a colon, or
      this one another: what the registry holds for a tenant and a key is the job of the
      first request that had both, and a request is blocked exactly when an earlier one
      had its tenant and key. */
  lemma RegistryHoldsFirst(rs: seq<Request>, n: nat, tenantID: string, key: string)
    requires n <= |rs| && key != ""
    requires forall j :: 0 <= j < n ==> Separate(rs[j].tenantID, tenantID)
    ensures LookUp(KeysAfter(rs, n), ScopedKey(tenantID, key)) == FirstJob(rs, n, tenantID, key)
    ensures ScopedKey(tenantID, key) in KeysAfter(rs, n) <==>
      exists j :: 0 <= j < n && rs[j].tenantID == tenantID && rs[j].key == key
  {
    HeldIsFirst(rs, n, tenantID, key);
    FirstJobIff(rs, n, tenantID, key);
  }
}
