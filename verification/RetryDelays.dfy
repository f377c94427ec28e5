/** How the delays between a job's attempts grow
    (internal/platform/dialer/queue.go:126-146). */
module RetryDelays {
  import opened Bytes
  import opened Clock
  import opened DialerQueue

  /** The delay in seconds before jitter, without the word's limit. */
  function RawDelay(c: Campaign, attempt: nat): (r: nat)
    requires attempt >= 1
    ensures r >= 1
  {
    Grows(BaseDelay(c), Pow2(attempt - 1));
    BaseDelay(c) * Pow2(attempt - 1)
  }

  lemma Grows(a: nat, b: nat)
    requires a >= 1 && b >= 1
    ensures a * b >= a && a * b >= b
  {
    assert a * b == a * (b - 1) + a == (a - 1) * b + b;
  }

  /** The most seconds a time.Duration can hold. */
  const MAX_SECONDS: int := 9_223_372_036

  /** The delay stays within a time.Duration, even with the largest jitter: the most it
      can be, in whole seconds, is at most MAX_SECONDS. */
  predicate InRange(c: Campaign, attempt: nat) {
    attempt >= 1 && 6 * RawDelay(c, attempt) < 5 * (MAX_SECONDS + 1)
  }

  lemma {:induction false} Pow2Exceeds(k: nat)
    ensures Pow2(k) > k
  {
    if k > 0 {
      Pow2Exceeds(k - 1);
    }
  }

  lemma Int64Fits(n: int)
    requires -9_223_372_036_854_775_808 <= n < 9_223_372_036_854_775_808
    ensures Int64(n) == n
  {
  }

  lemma {:induction false} Pow2Grows(j: nat, k: nat)
    requires j <= k
    ensures Pow2(j) <= Pow2(k)
  {
    if j < k {
      Pow2Grows(j, k - 1);
    }
  }

  lemma Pow2Of(k: nat)
    ensures Pow2(k + 4) == 16 * Pow2(k)
  {
    assert Pow2(k + 4) == 2 * Pow2(k + 3) == 4 * Pow2(k + 2) == 8 * Pow2(k + 1);
  }

  lemma Pow2At36()
    ensures Pow2(36) == 0x10_0000_0000
  {
    Pow2Of(0);
    Pow2Of(4);
    Pow2Of(8);
    Pow2Of(12);
    Pow2Of(16);
    Pow2Of(20);
    Pow2Of(24);
    Pow2Of(28);
    Pow2Of(32);
  }

  /** A backoff below 2^36 seconds loses no bit. */
  lemma BackoffBelow(c: Campaign, attempt: nat)
    requires attempt >= 1 && RawDelay(c, attempt) < 0x10_0000_0000
    ensures Backoff(c, attempt) == RawDelay(c, attempt)
  {
    Grows(BaseDelay(c), Pow2(attempt - 1));
    if attempt - 1 >= 36 {
      Pow2Grows(36, attempt - 1);
      Pow2At36();
      assert false;
    }
    Int64Fits(Pow2(attempt - 1));
    Int64Fits(RawDelay(c, attempt));
  }

  lemma Pow2At29()
    ensures Pow2(29) == 0x2000_0000
  {
    Pow2At36();
    Pow2Of(29);
    assert Pow2(36) == 2 * Pow2(35) == 4 * Pow2(34) == 8 * Pow2(33);
  }

  /** In range, no bit of the backoff is lost. */
  lemma BackoffIs(c: Campaign, attempt: nat)
    requires InRange(c, attempt)
    ensures Backoff(c, attempt) == RawDelay(c, attempt)
  {
    BackoffBelow(c, attempt);
  }

  lemma TruncBounds(secs: nat, t: real)
    requires -(secs as real) <= 5.0 * t <= secs as real
    ensures 4 * secs - 5 < 5 * Trunc(secs as real + t) <= 6 * secs
  {
    var x := secs as real + t;
    assert x >= 0.0 && 4.0 * secs as real <= 5.0 * x <= 6.0 * secs as real;
    assert x.Floor as real <= x < x.Floor as real + 1.0;
  }

  /** Whole seconds between four and six fifths. */
  lemma JitteredBounds(secs: nat, u: real)
    requires Jitter(u)
    ensures 4 * secs - 5 < 5 * Jittered(secs, u) <= 6 * secs
  {
    var fifth := secs as real * 0.20;
    JitterBounds(fifth, u);
    TruncBounds(secs, u * fifth);
  }

  lemma DelayIs(c: Campaign, attempt: nat, u: real)
    requires InRange(c, attempt) && Jitter(u)
    ensures var s := Jittered(RawDelay(c, attempt), u);
            RetryDelay(c, attempt, u) == if s < 1 then SECOND else s * SECOND
  {
    BackoffIs(c, attempt);
    JitteredBounds(RawDelay(c, attempt), u);
    Int64Fits(Jittered(RawDelay(c, attempt), u) * SECOND);
  }

  lemma NextDoubles(c: Campaign, attempt: nat)
    requires attempt >= 1
    ensures RawDelay(c, attempt + 1) == 2 * RawDelay(c, attempt)
  {
    assert Pow2(attempt) == 2 * Pow2(attempt - 1);
    assert BaseDelay(c) * (2 * Pow2(attempt - 1)) == 2 * (BaseDelay(c) * Pow2(attempt - 1));
  }

  lemma DelaysCompare(c: Campaign, attempt: nat, u: real, v: real)
    requires attempt >= 1 && InRange(c, attempt + 1) && Jitter(u) && Jitter(v)
    ensures RetryDelay(c, attempt, u) <= RetryDelay(c, attempt + 1, v)
    ensures RawDelay(c, attempt) >= 2 ==> RetryDelay(c, attempt, u) < RetryDelay(c, attempt + 1, v)
  {
    NextDoubles(c, attempt);
    DelayIs(c, attempt, u);
    DelayIs(c, attempt + 1, v);
    JitteredBounds(RawDelay(c, attempt), u);
    JitteredBounds(RawDelay(c, attempt + 1), v);
  }

  /** One second in time and two seconds early are the same delay. */
  lemma OneSecondTwice(c: Campaign, attempt: nat)
    requires attempt >= 1 && InRange(c, attempt + 1) && RawDelay(c, attempt) < 2
    ensures RetryDelay(c, attempt, 0.0) == RetryDelay(c, attempt + 1, -1.0)
  {
    NextDoubles(c, attempt);
    DelayIs(c, attempt, 0.0);
    DelayIs(c, attempt + 1, -1.0);
    assert Jittered(1, 0.0) == 1 && Jittered(2, -1.0) == 1;
  }

  /** Whatever the two jitters, the next delay is never shorter; and it is always longer
      if and only if the delay before jitter is at least two seconds. */
  lemma DelaysNeverShrink(c: Campaign, attempt: nat)
    requires attempt >= 1 && InRange(c, attempt + 1)
    ensures forall u, v :: Jitter(u) && Jitter(v) ==> RetryDelay(c, attempt, u) <= RetryDelay(c, attempt + 1, v)
    ensures (forall u, v :: Jitter(u) && Jitter(v) ==> RetryDelay(c, attempt, u) < RetryDelay(c, attempt + 1, v))
            <==> RawDelay(c, attempt) >= 2
  {
    forall u, v | Jitter(u) && Jitter(v)
      ensures RetryDelay(c, attempt, u) <= RetryDelay(c, attempt + 1, v)
      ensures RawDelay(c, attempt) >= 2 ==> RetryDelay(c, attempt, u) < RetryDelay(c, attempt + 1, v)
    {
      DelaysCompare(c, attempt, u, v);
    }
    if RawDelay(c, attempt) < 2 {
      OneSecondTwice(c, attempt);
      assert Jitter(0.0) && Jitter(-1.0);
    }
  }

  /** Delays from attempt `m` on, each with its own jitter, are at least that of
      attempt `m`: over a job's whole life in range, delays are non-decreasing. */
  lemma {:induction false} DelaysNonDecreasing(c: Campaign, m: nat, n: nat, jitter: nat -> real)
    requires 1 <= m <= n && InRange(c, n) && forall k :: Jitter(jitter(k))
    ensures RetryDelay(c, m, jitter(m)) <= RetryDelay(c, n, jitter(n))
    decreases n
  {
    if m < n {
      NextDoubles(c, n - 1);
      DelaysNonDecreasing(c, m, n - 1, jitter);
      DelaysCompare(c, n - 1, jitter(n - 1), jitter(n));
    }
  }

  /** The delay that is meant: whole seconds of the jittered backoff, and at least one. */
  function MeantDelay(c: Campaign, attempt: nat, u: real): int
    requires attempt >= 1
  {
    var s := Jittered(RawDelay(c, attempt), u);
    if s < 1 then SECOND else s * SECOND
  }

  /** A jitter so late that it takes off only a fifth of a second from the longest delay. */
  function Latest(secs: nat): real
    requires secs >= 1
  {
    1.0 - 1.0 / secs as real
  }

  lemma LatestIs(secs: nat)
    requires secs >= 1
    ensures Jitter(Latest(secs)) && Jittered(secs, Latest(secs)) == (6 * secs - 1) / 5
  {
    var r := secs as real;
    assert r * (1.0 / r) == 1.0;
    assert 1.0 / r > 0.0 && 1.0 / r <= 1.0;
    assert Latest(secs) * (r * 0.20) == (r - r * (1.0 / r)) * 0.20 == (r - 1.0) * 0.20;
    FloorOfFifths(6 * secs - 1, r + Latest(secs) * (r * 0.20));
  }

  lemma FloorOfFifths(n: nat, x: real)
    requires 5.0 * x == n as real
    ensures Trunc(x) == n / 5
  {
    assert x >= 0.0 && x.Floor as real <= x < x.Floor as real + 1.0;
    assert (5 * x.Floor) as real <= n as real < (5 * x.Floor + 5) as real;
  }

  /** With it, out of range the meant delay is more than a word can hold. */
  lemma MeantTooLong(c: Campaign, attempt: nat)
    requires attempt >= 1 && !InRange(c, attempt)
    ensures var u := Latest(RawDelay(c, attempt));
            Jitter(u) && RetryDelay(c, attempt, u) < 9_223_372_036_854_775_808 < MeantDelay(c, attempt, u)
  {
    var raw := RawDelay(c, attempt);
    LatestIs(raw);
    assert (6 * raw - 1) / 5 > MAX_SECONDS;
    Int64Bounds(Jittered(Backoff(c, attempt), Latest(raw)) * SECOND);
  }

  lemma Int64Bounds(n: int)
    ensures -9_223_372_036_854_775_808 <= Int64(n) < 9_223_372_036_854_775_808
  {
  }

  /** A delay is the one that is meant, whatever the jitter, exactly when it is in range. */
  lemma MeantIff(c: Campaign, attempt: nat)
    requires attempt >= 1
    ensures (forall u :: Jitter(u) ==> RetryDelay(c, attempt, u) == MeantDelay(c, attempt, u)) <==> InRange(c, attempt)
  {
    if InRange(c, attempt) {
      forall u | Jitter(u) ensures RetryDelay(c, attempt, u) == MeantDelay(c, attempt, u) {
        DelayIs(c, attempt, u);
      }
    } else {
      MeantTooLong(c, attempt);
    }
  }

  /** Seconds that do not fit, but less than twice what does, are a negative duration. */
  lemma TurnsNegative(secs: nat)
    requires MAX_SECONDS < secs < 2 * (MAX_SECONDS + 1)
    ensures Int64(secs * SECOND) < 0
  {
    var n := secs * SECOND;
    assert TWO63 <= n < 2 * TWO63;
    assert Int64(n) == n - 2 * TWO63;
  }

  /** The first delay out of range is one second, when its jitter is late enough: the
      product with a second has become negative. */
  lemma FirstOutCollapses(c: Campaign, attempt: nat)
    requires InRange(c, attempt) && !InRange(c, attempt + 1)
    ensures var u := Latest(RawDelay(c, attempt + 1));
            Jitter(u) && RetryDelay(c, attempt + 1, u) == SECOND < RetryDelay(c, attempt, 0.0)
  {
    NextDoubles(c, attempt);
    DelayIs(c, attempt, 0.0);
    var raw := RawDelay(c, attempt + 1);
    BackoffBelow(c, attempt + 1);
    LatestIs(raw);
    TurnsNegative((6 * raw - 1) / 5);
  }

  /** The delays of attempts 1 to `n` never shrink, whatever their jitters. */
  ghost predicate NeverShrink(c: Campaign, n: nat) {
    forall a: nat, u, v :: 1 <= a < n && Jitter(u) && Jitter(v) ==> NoShorter(c, a, u, v)
  }

  predicate NoShorter(c: Campaign, attempt: nat, u: real, v: real)
    requires attempt >= 1
  {
    RetryDelay(c, attempt, u) <= RetryDelay(c, attempt + 1, v)
  }

  lemma {:induction false} EarlierInRange(c: Campaign, a: nat, n: nat)
    requires 1 <= a <= n && InRange(c, n)
    ensures InRange(c, a)
    decreases n
  {
    if a < n {
      NextDoubles(c, n - 1);
      EarlierInRange(c, a, n - 1);
    }
  }

  lemma {:induction false} LastInRange(c: Campaign, n: nat) returns (a: nat)
    requires n >= 1 && InRange(c, 1) && !InRange(c, n)
    ensures 1 <= a < n && InRange(c, a) && !InRange(c, a + 1)
  {
    a := n - 1;
    if !InRange(c, a) {
      a := LastInRange(c, n - 1);
    }
  }

  /** Over a job's life up to attempt `n` the delays never shrink, whatever the jitters,
      exactly when the delay of attempt `n` is in range, for a base delay that is. */
  lemma NeverShrinkIff(c: Campaign, n: nat)
    requires n >= 1 && InRange(c, 1)
    ensures NeverShrink(c, n) <==> InRange(c, n)
  {
    if InRange(c, n) {
      forall a: nat, u, v | 1 <= a < n && Jitter(u) && Jitter(v) ensures NoShorter(c, a, u, v) {
        EarlierInRange(c, a + 1, n);
        DelaysCompare(c, a, u, v);
      }
    } else {
      var a := LastInRange(c, n);
      FirstOutCollapses(c, a);
      assert Jitter(0.0) && !NoShorter(c, a, 0.0, Latest(RawDelay(c, a + 1)));
    }
  }

  /** A base delay that is itself out of range needs the proviso: one of 380 years
      collapses at once, and a second attempt cannot come sooner still. */
  lemma HugeBase(c: Campaign)
    requires c.retryDelaySeconds == 12_000_000_000
    ensures !InRange(c, 1) && !InRange(c, 2) && NeverShrink(c, 2)
  {
    assert Pow2(0) == 1 && RawDelay(c, 1) == 12_000_000_000;
    NextDoubles(c, 1);
    BackoffBelow(c, 1);
    forall a: nat, u, v | 1 <= a < 2 && Jitter(u) && Jitter(v) ensures NoShorter(c, a, u, v) {
      JitteredBounds(12_000_000_000, u);
      var n := Jittered(12_000_000_000, u) * SECOND;
      assert TWO63 <= n < 2 * TWO63;
      assert Int64(n) == n - 2 * TWO63;
    }
  }

  /** With the default base of ten seconds that is attempt 31, even without jitter. */
  lemma DefaultCollapses(c: Campaign)
    requires c.retryDelaySeconds <= 0
    ensures InRange(c, 30) && !InRange(c, 31)
    ensures RetryDelay(c, 30, 0.0) == 5_368_709_120 * SECOND && RetryDelay(c, 31, 0.0) == SECOND
  {
    Pow2At29();
    assert RawDelay(c, 30) == 5_368_709_120;
    NextDoubles(c, 30);
    DelayIs(c, 30, 0.0);
    BackoffBelow(c, 31);
    assert Jittered(10_737_418_240, 0.0) == 10_737_418_240;
  }

  /** From attempt 65 on all bits are shifted out and every delay is one second. */
  lemma DelayCollapses(c: Campaign, attempt: nat, u: real)
    requires attempt >= 65
    ensures RetryDelay(c, attempt, u) == SECOND
  {
    assert BaseDelay(c) * Multiplier(attempt) == 0;
    assert Jittered(0, u) == 0;
  }
}
