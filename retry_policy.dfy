/** The retry policy of role assignment: at most five attempts, and a
    doubling wait, in whole seconds, before each attempt after the first. */
module RetryPolicy {

  const MaxAttempts: nat := 5
  /** Seconds waited before the second attempt. */
  const BaseDelay: nat := 5

  function Pow2(n: nat): (r: nat)
    ensures r >= 1
  {
    if n == 0 then 1 else 2 * Pow2(n - 1)
  }

  /** Seconds waited before attempt `k`; only attempts 2 to 5 are preceded
      by a wait. */
  function Backoff(k: nat): (r: nat)
    requires 2 <= k <= MaxAttempts
    ensures BaseDelay <= r <= BaseDelay * Pow2(MaxAttempts - 2)
  {
    Pow2Monotone(k - 2, MaxAttempts - 2);
    BaseDelay * Pow2(k - 2)
  }

  lemma {:induction false} Pow2Monotone(m: nat, n: nat)
    requires m <= n
    ensures Pow2(m) <= Pow2(n)
    decreases n
  {
    if m < n {
      Pow2Monotone(m, n - 1);
    }
  }

  /** The waits before attempts 2 to `n` + 1, in order. */
  function Schedule(n: nat): (s: seq<nat>)
    requires n < MaxAttempts
    ensures |s| == n
    ensures forall i :: 0 <= i < n ==> s[i] == Backoff(i + 2)
  {
    if n == 0 then [] else Schedule(n - 1) + [Backoff(n + 1)]
  }

  function Sum(s: seq<nat>): nat
  {
    if s == [] then 0 else Sum(s[..|s| - 1]) + s[|s| - 1]
  }

  /** The tested schedule: 5s, 10s, 20s, 40s before attempts 2, 3, 4, 5. */
  lemma BackoffValues()
    ensures Backoff(2) == 5 && Backoff(3) == 10 && Backoff(4) == 20 && Backoff(5) == 40
  {
  }

  /** The schedules the tests expect: 5s, then 10s, 20s and 40s. */
  lemma ScheduleValues()
    ensures Schedule(0) == []
    ensures Schedule(1) == [5]
    ensures Schedule(2) == [5, 10]
    ensures Schedule(3) == [5, 10, 20]
    ensures Schedule(4) == [5, 10, 20, 40]
  {
    BackoffValues();
    assert Schedule(1) == [] + [Backoff(2)];
    assert Schedule(2) == Schedule(1) + [Backoff(3)];
    assert Schedule(3) == Schedule(2) + [Backoff(4)];
    assert Schedule(4) == Schedule(3) + [Backoff(5)];
  }

  /** Each wait is twice the previous one. */
  lemma BackoffDoubles(k: nat)
    requires 2 <= k < MaxAttempts
    ensures Backoff(k + 1) == 2 * Backoff(k)
  {
  }

  /** The first `n` waits add up to 5s * (2^n - 1). */
  lemma {:induction false} ScheduleSum(n: nat)
    requires n < MaxAttempts
    ensures Sum(Schedule(n)) == BaseDelay * (Pow2(n) - 1)
  {
    if n > 0 {
      ScheduleSum(n - 1);
      var s := Schedule(n);
      assert s[..|s| - 1] == Schedule(n - 1);
    }
  }
}
