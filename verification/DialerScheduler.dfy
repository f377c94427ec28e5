/** The scheduler's tick: which line dials next, and when
    (internal/platform/dialer/scheduler.go:143-229, internal/platform/dialer/scheduler.go:263-274). */
module DialerScheduler {
  import opened Clock
  import opened DialerQueue

  datatype Instance = Instance(id: string, status: string, activeCalls: int, maxConcurrentCalls: int)

  predicate Healthy(i: Instance) {
    i.status == "CONNECTED" || i.status == "BUSY" || i.status == "AVAILABLE"
  }

  predicate FreeLine(i: Instance) {
    Healthy(i) && i.activeCalls < i.maxConcurrentCalls
  }

  /** The healthy lines with a free slot, in the order of the pool. */
  function Lines(pool: seq<Instance>): seq<Instance> {
    if pool == [] then [] else (if FreeLine(pool[0]) then [pool[0]] else []) + Lines(pool[1..])
  }

  method FilterEligibleInstances(pool: seq<Instance>) returns (out: seq<Instance>)
    ensures out == Lines(pool)
  {
    out := [];
    for i := 0 to |pool|
      invariant Lines(pool) == out + Lines(pool[i..])
    {
      assert pool[i..][0] == pool[i] && pool[i..][1..] == pool[i + 1..];
      var inst := pool[i];
      if inst.status == "CONNECTED" || inst.status == "BUSY" || inst.status == "AVAILABLE" {
        if inst.activeCalls < inst.maxConcurrentCalls {
          ghost var rest := Lines(pool[i + 1..]);
          assert out + ([inst] + rest) == out + [inst] + rest;
          out := out + [inst];
        }
      }
    }
    assert out + [] == out;
  }

  function SumActive(lines: seq<Instance>): int {
    if lines == [] then 0 else lines[0].activeCalls + SumActive(lines[1..])
  }

  function SumMax(lines: seq<Instance>): int {
    if lines == [] then 0 else lines[0].maxConcurrentCalls + SumMax(lines[1..])
  }

  /** The campaign's limit, or all the lines' slots together. */
  function FreeSlots(limit: int, lines: seq<Instance>): int {
    (if limit <= 0 then SumMax(lines) else limit) - SumActive(lines)
  }

  method CountSlots(limit: int, lines: seq<Instance>) returns (slots: int)
    ensures slots == FreeSlots(limit, lines)
  {
    var active, max := 0, 0;
    for i := 0 to |lines|
      invariant active + SumActive(lines[i..]) == SumActive(lines)
      invariant max + SumMax(lines[i..]) == SumMax(lines)
    {
      assert lines[i..][0] == lines[i] && lines[i..][1..] == lines[i + 1..];
      active := active + lines[i].activeCalls;
      max := max + lines[i].maxConcurrentCalls;
    }
    slots := (if limit <= 0 then max else limit) - active;
  }

  function Interval(dialIntervalSeconds: int): (s: nat)
    ensures s >= 1
  {
    if dialIntervalSeconds <= 0 then 5 else dialIntervalSeconds
  }

  /** At most a fifth, in whole seconds, `u` being in [-1, 1). */
  function JitterOf(secs: int, u: real): int {
    Trunc(u * (secs as real * 0.20))
  }

  /** The pause a line needs. */
  function Pause(dialIntervalSeconds: int, u: real): int {
    Interval(dialIntervalSeconds) * SECOND + JitterOf(Interval(dialIntervalSeconds), u) * SECOND
  }

  method RequiredInterval(dialIntervalSeconds: int, u: real) returns (requiredInterval: int)
    ensures requiredInterval == Pause(dialIntervalSeconds, u)
  {
    var intervalSeconds := dialIntervalSeconds;
    if intervalSeconds <= 0 {
      intervalSeconds := 5;
    }
    assert intervalSeconds == Interval(dialIntervalSeconds);
    var jitter := intervalSeconds as real * 0.20;
    var jitterDuration := Trunc(u * jitter);
    assert jitterDuration == JitterOf(intervalSeconds, u);
    requiredInterval := intervalSeconds * SECOND + jitterDuration * SECOND;
  }

  /** The line whose turn it is. */
  function Turn(rr: nat, lines: seq<Instance>): (k: nat)
    requires lines != []
    ensures k < |lines|
  {
    if rr >= |lines| then 0 else rr
  }

  function NextTurn(rr: nat, lines: seq<Instance>): nat
    requires lines != []
  {
    (Turn(rr, lines) + 1) % |lines|
  }

  /** Whether a line has rested since its last dial.  A line never dialed has the zero
      time, from which a duration is the longest there is. */
  predicate Rested(lastDial: map<string, int>, id: string, now: int, pause: int) {
    id !in lastDial || now - lastDial[id] >= pause
  }

  class Scheduler {
    var rrIndex: nat
    var instanceLastDial: map<string, int>

    constructor ()
      ensures rrIndex == 0 && instanceLastDial == map[]
    {
      rrIndex, instanceLastDial := 0, map[];
    }

    /** The tick up to NextJob: a line that may dial now, or none. */
    method PickLine(pool: seq<Instance>, limit: int, dialIntervalSeconds: int, u: real, now: int)
      returns (found: bool, line: Instance)
      modifies `rrIndex
      ensures var lines := Lines(pool);
              if lines == [] || FreeSlots(limit, lines) <= 0 then !found && rrIndex == old(rrIndex)
              else
                && rrIndex == NextTurn(old(rrIndex), lines)
                && line == lines[Turn(old(rrIndex), lines)]
                && (found <==> Rested(instanceLastDial, line.id, now, Pause(dialIntervalSeconds, u)))
    {
      found, line := false, Instance("", "", 0, 0);
      var activeInstances := FilterEligibleInstances(pool);
      if |activeInstances| == 0 {
        return;
      }
      var availableSlots := CountSlots(limit, activeInstances);
      if availableSlots <= 0 {
        return;
      }
      if rrIndex >= |activeInstances| {
        rrIndex := 0;
      }
      line := activeInstances[rrIndex];
      rrIndex := (rrIndex + 1) % |activeInstances|;
      var requiredInterval := RequiredInterval(dialIntervalSeconds, u);
      found := line.id !in instanceLastDial || now - instanceLastDial[line.id] >= requiredInterval;
    }

    /** The line's slot is taken once there is a job for it. */
    method TakeSlot(line: Instance, now: int)
      modifies `instanceLastDial
      ensures instanceLastDial == old(instanceLastDial)[line.id := now]
    {
      instanceLastDial := instanceLastDial[line.id := now];
    }
  }

  // ------------------------------------------------------------------
  // Only free lines dial
  // ------------------------------------------------------------------

  /** The lines that may dial are those of the pool that are connected, busy or available
      and have fewer calls than they may. */
  lemma {:induction false} LinesAreFree(pool: seq<Instance>, i: Instance)
    ensures i in Lines(pool) <==>
      i in pool && i.status in {"CONNECTED", "BUSY", "AVAILABLE"} && i.activeCalls < i.maxConcurrentCalls
  {
    if pool != [] {
      assert pool == [pool[0]] + pool[1..];
      LinesAreFree(pool[1..], i);
    }
  }

  /** The slots of one line more: the campaign's limit stays, or grows by the line's, and
      the line's calls are taken off. */
  lemma OneMoreLine(limit: int, lines: seq<Instance>, i: Instance)
    ensures FreeSlots(limit, []) == if limit <= 0 then 0 else limit
    ensures FreeSlots(limit, [i] + lines)
         == FreeSlots(limit, lines) - i.activeCalls + if limit <= 0 then i.maxConcurrentCalls else 0
  {
    assert ([i] + lines)[1..] == lines;
  }

  /** The interval is five seconds unless the campaign sets one. */
  lemma IntervalIs(s: int)
    ensures Interval(s) == if s >= 1 then s else 5
  {
  }

  // ------------------------------------------------------------------
  // Every line gets its turn
  // ------------------------------------------------------------------

  /** The line whose turn it is after `n` ticks with the same lines. */
  function TurnAfter(rr: nat, lines: seq<Instance>, n: nat): nat
    requires lines != []
  {
    Turn(RrAfter(rr, lines, n), lines)
  }

  function RrAfter(rr: nat, lines: seq<Instance>, n: nat): nat
    requires lines != []
  {
    if n == 0 then rr else NextTurn(RrAfter(rr, lines, n - 1), lines)
  }

  lemma NextOrFirst(t: nat, size: nat)
    requires t < size
    ensures (t + 1) % size == if t + 1 == size then 0 else t + 1
  {
  }

  lemma {:induction false} TurnsInOrder(rr: nat, lines: seq<Instance>, n: nat)
    requires lines != [] && n < |lines|
    ensures TurnAfter(rr, lines, n)
         == if Turn(rr, lines) + n < |lines| then Turn(rr, lines) + n else Turn(rr, lines) + n - |lines|
  {
    if n > 0 {
      TurnsInOrder(rr, lines, n - 1);
      NextOrFirst(TurnAfter(rr, lines, n - 1), |lines|);
    }
  }

  /** Any |lines| successive ticks give each line exactly one turn. */
  lemma EachLineOnce(rr: nat, lines: seq<Instance>, k: nat)
    requires lines != [] && k < |lines|
    ensures exists n: nat :: n < |lines| && TurnAfter(rr, lines, n) == k
    ensures forall n: nat, m: nat :: n < m < |lines| ==> TurnAfter(rr, lines, n) != TurnAfter(rr, lines, m)
  {
    var t := Turn(rr, lines);
    var n: nat := if k >= t then k - t else k + |lines| - t;
    TurnsInOrder(rr, lines, n);
    assert TurnAfter(rr, lines, n) == k;
    forall n: nat, m: nat | n < m < |lines| ensures TurnAfter(rr, lines, n) != TurnAfter(rr, lines, m) {
      TurnsInOrder(rr, lines, n);
      TurnsInOrder(rr, lines, m);
    }
  }

  // ------------------------------------------------------------------
  // How the dials on a line are paced
  // ------------------------------------------------------------------

  /** A line that has been found rested by a loop, which has not dialed on it yet, and how
      many dials had been made by then. */
  datatype Check = Check(id: string, at: int, dialIntervalSeconds: int, seen: nat)

  datatype Dial = Dial(loop: nat, check: Check, now: int)

  /** The times of the last dials, what the loops are about to do, and all dials made. */
  datatype World = World(lastDial: map<string, int>, pending: map<nat, Check>, dials: seq<Dial>)

  const IDLE: World := World(map[], map[], [])

  /** Each campaign's loop runs on its own, and between its look at a line's last dial and
      its own dial it asks the queue for a job, under no lock that covers both. */
  datatype Event =
    | Checks(loop: nat, id: string, dialIntervalSeconds: int, u: real)
    | FindsNoJob(loop: nat)
    | Takes(loop: nat)

  datatype Timed = Timed(e: Event, now: int)

  /** A step that is not possible in `w` does nothing. */
  function Step(w: World, e: Event, now: int): World {
    match e
    case Checks(loop, id, s, u) =>
      if loop !in w.pending && Jitter(u) && Rested(w.lastDial, id, now, Pause(s, u))
      then w.(pending := w.pending[loop := Check(id, now, s, |w.dials|)])
      else w
    case FindsNoJob(loop) => w.(pending := w.pending - {loop})
    case Takes(loop) =>
      if loop in w.pending then
        var c := w.pending[loop];
        World(w.lastDial[c.id := now], w.pending - {loop}, w.dials + [Dial(loop, c, now)])
      else w
  }

  /** A loop that is not about to dial finds a line rested exactly when it was never dialed,
      or the pause has passed since. */
  lemma ChecksIff(w: World, loop: nat, id: string, s: int, u: real, now: int)
    requires loop !in w.pending && Jitter(u)
    ensures loop in Step(w, Checks(loop, id, s, u), now).pending <==> id !in w.lastDial || w.lastDial[id] + Pause(s, u) <= now
  {
  }

  /** A loop about to dial either finds no job, and then only it goes on, or dials the line
      it checked, whose time is then that of the dial; either way it may check again. */
  lemma GoesOn(w: World, loop: nat, now: int)
    requires loop in w.pending
    ensures var none, took := Step(w, FindsNoJob(loop), now), Step(w, Takes(loop), now);
            && loop !in none.pending && loop !in took.pending
            && (forall l :: l != loop && l in w.pending ==> l in none.pending && none.pending[l] == w.pending[l])
            && none.dials == w.dials && none.lastDial == w.lastDial
            && took.dials == w.dials + [Dial(loop, w.pending[loop], now)]
            && w.pending[loop].id in took.lastDial && took.lastDial[w.pending[loop].id] == now
  {
  }

  function After(run: seq<Timed>, n: nat): World
    requires n <= |run|
  {
    if n == 0 then IDLE else Step(After(run, n - 1), run[n - 1].e, run[n - 1].now)
  }

  function Now(run: seq<Timed>, n: nat): int
    requires n <= |run|
  {
    if n == 0 then 0 else run[n - 1].now
  }

  /** The clock never goes back. */
  predicate Monotone(run: seq<Timed>) {
    forall k: nat :: k < |run| ==> Now(run, k) <= Now(run, k + 1)
  }

  /** `now` comes at least four fifths of an interval after dial `d`. */
  predicate Later(d: Dial, now: int, dialIntervalSeconds: int) {
    5 * (now - d.now) >= 4 * Interval(dialIntervalSeconds) * SECOND
  }

  /** A check is later than each dial on its line that it could see, which are all of its
      own loop's. */
  predicate Sees(ds: seq<Dial>, n: nat, loop: nat, c: Check)
    requires n <= |ds|
  {
    && c.seen <= n
    && (forall i: nat :: i < c.seen && ds[i].check.id == c.id ==> Later(ds[i], c.at, c.dialIntervalSeconds))
    && (forall i: nat :: i < n && ds[i].loop == loop ==> i < c.seen)
  }

  ghost predicate Recorded(w: World, now: int) {
    forall d :: d in w.dials ==> d.check.id in w.lastDial && d.now <= w.lastDial[d.check.id] <= now
  }

  ghost predicate ChecksSee(w: World, now: int) {
    forall loop :: loop in w.pending ==> w.pending[loop].at <= now && Sees(w.dials, |w.dials|, loop, w.pending[loop])
  }

  ghost predicate DialsSaw(w: World) {
    forall j: nat :: j < |w.dials| ==> DialSaw(w.dials, j)
  }

  predicate DialSaw(ds: seq<Dial>, j: nat)
    requires j < |ds|
  {
    ds[j].check.at <= ds[j].now && Sees(ds, j, ds[j].loop, ds[j].check)
  }

  ghost predicate Kept(w: World, now: int) {
    Recorded(w, now) && ChecksSee(w, now) && DialsSaw(w)
  }

  lemma JitterOfBounds(secs: nat, u: real)
    requires Jitter(u)
    ensures var j := JitterOf(secs, u); -(secs as int) <= 5 * j <= secs && (u >= 0.0 ==> j >= 0) && (u <= 0.0 ==> j <= 0)
  {
    var x := Product(u, secs as real * 0.20);
    TruncSign(x, secs as real * 0.20, secs);
  }

  /** A product with a factor within one. */
  lemma Product(u: real, a: real) returns (x: real)
    requires a >= 0.0 && Jitter(u)
    ensures x == u * a && -a <= x <= a && (u >= 0.0 ==> x >= 0.0) && (u <= 0.0 ==> x <= 0.0)
  {
    JitterBounds(a, u);
    SignOfProduct(u, a);
    x := u * a;
  }

  lemma SignOfProduct(u: real, a: real)
    requires a >= 0.0
    ensures (u >= 0.0 ==> u * a >= 0.0) && (u <= 0.0 ==> u * a <= 0.0)
  {
  }

  lemma TruncSign(x: real, fifth: real, secs: nat)
    requires -fifth <= x <= fifth && fifth == secs as real * 0.20
    ensures -(secs as int) <= 5 * Trunc(x) <= secs && (x >= 0.0 ==> Trunc(x) >= 0) && (x <= 0.0 ==> Trunc(x) <= 0)
  {
  }

  /** A pause is within a fifth of the interval, above it for a positive random number and
      below it for a negative one. */
  lemma PauseBounds(dialIntervalSeconds: int, u: real)
    requires Jitter(u)
    ensures var s, pause := Interval(dialIntervalSeconds), Pause(dialIntervalSeconds, u);
            && 4 * s * SECOND <= 5 * pause <= 6 * s * SECOND
            && (u >= 0.0 ==> pause >= s * 1_000_000_000) && (u <= 0.0 ==> pause <= s * 1_000_000_000)
  {
    JitterOfBounds(Interval(dialIntervalSeconds), u);
  }

  /** A line that has rested was last dialed long enough ago. */
  lemma CheckSees(w: World, before: int, loop: nat, id: string, s: int, u: real, now: int)
    requires Recorded(w, before) && Jitter(u) && Rested(w.lastDial, id, now, Pause(s, u))
    ensures Sees(w.dials, |w.dials|, loop, Check(id, now, s, |w.dials|))
  {
    PauseBounds(s, u);
    forall i: nat | i < |w.dials| && w.dials[i].check.id == id ensures Later(w.dials[i], now, s) {
      assert w.dials[i] in w.dials;
    }
  }

  /** A check of another loop sees no more for a dial that follows. */
  lemma OneMoreDial(ds: seq<Dial>, n: nat, d: Dial, loop: nat, c: Check)
    requires n <= |ds| && Sees(ds, n, loop, c)
    ensures Sees(ds + [d], n, loop, c)
    ensures n == |ds| && d.loop != loop ==> Sees(ds + [d], n + 1, loop, c)
  {
    assert forall i: nat :: i < n ==> (ds + [d])[i] == ds[i];
  }

  lemma TakeKeeps(w: World, before: int, loop: nat, now: int)
    requires Kept(w, before) && before <= now && loop in w.pending
    ensures Kept(Step(w, Takes(loop), now), now)
  {
    var w', c := Step(w, Takes(loop), now), w.pending[loop];
    var d := Dial(loop, c, now);
    forall x | x in w'.dials ensures x.check.id in w'.lastDial && x.now <= w'.lastDial[x.check.id] <= now {
      assert x in w.dials || x == d;
    }
    forall l | l in w'.pending ensures w'.pending[l].at <= now && Sees(w'.dials, |w'.dials|, l, w'.pending[l]) {
      OneMoreDial(w.dials, |w.dials|, d, l, w.pending[l]);
    }
    forall j: nat | j < |w'.dials| ensures DialSaw(w'.dials, j) {
      if j < |w.dials| {
        assert DialSaw(w.dials, j);
        OneMoreDial(w.dials, j, d, w.dials[j].loop, w.dials[j].check);
      } else {
        OneMoreDial(w.dials, j, d, loop, c);
      }
    }
  }

  lemma StepKeeps(w: World, e: Event, before: int, now: int)
    requires Kept(w, before) && before <= now
    ensures Kept(Step(w, e, now), now)
  {
    match e {
      case Checks(loop, id, s, u) =>
        if Jitter(u) && Rested(w.lastDial, id, now, Pause(s, u)) {
          CheckSees(w, before, loop, id, s, u, now);
        }
      case FindsNoJob(_) =>
      case Takes(loop) =>
        if loop in w.pending {
          TakeKeeps(w, before, loop, now);
        }
    }
  }

  lemma {:induction false} AlwaysKept(run: seq<Timed>, n: nat)
    requires n <= |run| && Monotone(run)
    ensures Kept(After(run, n), Now(run, n))
  {
    if n > 0 {
      AlwaysKept(run, n - 1);
      assert Now(run, n - 1) <= Now(run, n - 1 + 1);
      StepKeeps(After(run, n - 1), run[n - 1].e, Now(run, n - 1), run[n - 1].now);
    }
  }

  /** Dial `j` was checked before dial `i` of another loop on its line was made, and made
      after it. */
  predicate Races(ds: seq<Dial>, i: nat, j: nat)
    requires i < j < |ds|
  {
    ds[i].check.id == ds[j].check.id && ds[i].loop != ds[j].loop && ds[j].check.seen <= i
  }

  /** Every interleaving of any number of campaigns' loops: of two dials on a line, the
      later one comes at least four fifths of its campaign's interval after the earlier
      one, whatever the jitter, unless the earlier is another loop's and falls between the
      later one's check and its dial. */
  lemma LinePaced(run: seq<Timed>, n: nat, i: nat, j: nat)
    requires n <= |run| && Monotone(run)
    requires i < j < |After(run, n).dials| && After(run, n).dials[i].check.id == After(run, n).dials[j].check.id
    ensures var ds := After(run, n).dials;
            Races(ds, i, j) || Later(ds[i], ds[j].now, ds[j].check.dialIntervalSeconds)
  {
    AlwaysKept(run, n);
    var ds := After(run, n).dials;
    assert DialSaw(ds, j);
    if ds[i].loop == ds[j].loop || i < ds[j].check.seen {
      assert Later(ds[i], ds[j].check.at, ds[j].check.dialIntervalSeconds);
    }
  }

  /** So a loop alone on its lines always paces them. */
  lemma OwnLinesPaced(run: seq<Timed>, n: nat, i: nat, j: nat)
    requires n <= |run| && Monotone(run)
    requires i < j < |After(run, n).dials| && After(run, n).dials[i].check.id == After(run, n).dials[j].check.id
    requires After(run, n).dials[i].loop == After(run, n).dials[j].loop
    ensures var ds := After(run, n).dials;
            Later(ds[i], ds[j].now, ds[j].check.dialIntervalSeconds)
  {
    LinePaced(run, n, i, j);
  }

  /** Two loops that share a line can dial on it at the same instant. */
  lemma RaceDialsTwice(id: string, s: int, u: real, s': int, u': real, now: int)
    requires now >= 0 && Jitter(u) && Jitter(u')
    ensures var run := [Timed(Checks(1, id, s, u), now), Timed(Checks(2, id, s', u'), now),
                        Timed(Takes(1), now), Timed(Takes(2), now)];
            var ds := After(run, 4).dials;
            && Monotone(run) && |ds| == 2 && Races(ds, 0, 1)
            && ds[0].check.id == ds[1].check.id == id && ds[0].now == ds[1].now == now
            && !Later(ds[0], ds[1].now, ds[1].check.dialIntervalSeconds)
  {
    var run := [Timed(Checks(1, id, s, u), now), Timed(Checks(2, id, s', u'), now),
                Timed(Takes(1), now), Timed(Takes(2), now)];
    var c, c' := Check(id, now, s, 0), Check(id, now, s', 0);
    assert After(run, 0) == IDLE;
    assert After(run, 1) == World(map[], map[1 := c], []);
    assert After(run, 2) == World(map[], map[1 := c, 2 := c'], []);
    assert After(run, 3) == World(map[id := now], map[2 := c'], [Dial(1, c, now)]);
    assert After(run, 4).dials == [Dial(1, c, now), Dial(2, c', now)];
  }
}
