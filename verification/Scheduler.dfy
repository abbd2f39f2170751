/** The retry loop of a scheduled job and its capped exponential backoff. Durations are
    64-bit counts of nanoseconds. */
module Scheduler {

  const INT64_LIMIT := 0x8000_0000_0000_0000
  const MAX_SHIFT := 10

  /** What a 64-bit signed multiplication leaves of an exact product. */
  function Wrap64(n: int): int {
    (n + INT64_LIMIT) % (2 * INT64_LIMIT) - INT64_LIMIT
  }

  function Power2(n: nat): nat {
    if n == 0 then 1 else 2 * Power2(n - 1)
  }

  function Shift(attempt: int): nat {
    if attempt <= 1 then 0 else if attempt - 1 > MAX_SHIFT then MAX_SHIFT else attempt - 1
  }

  /** The wait before the retry that follows a number of failed attempts. */
  function CalculateBackoff(base: int, attempt: int): int {
    Wrap64(base * Power2(Shift(attempt)))
  }

  lemma PowersOfTwo()
    ensures Power2(10) == 1024
  {
  }

  lemma {:induction false} PowerMonotone(m: nat, n: nat)
    requires m <= n
    ensures 1 <= Power2(m) <= Power2(n)
    decreases n
  {
    if m < n {
      PowerMonotone(m, n - 1);
    } else if m > 0 {
      PowerMonotone(m - 1, m - 1);
    }
  }

  /** The computed wait is the exact power-of-two multiple of the base precisely when that
      fits 64 bits; no base up to the largest duration over 1024 ever overflows. */
  lemma BackoffExact(base: nat, attempt: int)
    requires base < INT64_LIMIT
    ensures CalculateBackoff(base, attempt) == base * Power2(Shift(attempt)) <==> base * Power2(Shift(attempt)) < INT64_LIMIT
    ensures base <= (INT64_LIMIT - 1) / 1024 ==>
              CalculateBackoff(base, attempt) == base * Power2(Shift(attempt)) <= 1024 * base
  {
    PowersOfTwo();
    PowerMonotone(Shift(attempt), 10);
    var p := Power2(Shift(attempt));
    assert 0 <= base * p <= base * 1024 by {
      ProductMonotone(base, p, 1024);
    }
    if base * p < INT64_LIMIT {
      assert (base * p + INT64_LIMIT) % (2 * INT64_LIMIT) == base * p + INT64_LIMIT;
    }
  }

  lemma ProductMonotone(a: nat, b: nat, c: nat)
    requires b <= c
    ensures 0 <= a * b <= a * c
  {
  }

  /** The waits after the first n failed attempts. */
  function Waits(base: int, n: nat): (w: seq<int>)
    ensures |w| == n && forall i :: 0 <= i < n ==> w[i] == CalculateBackoff(base, i + 1)
  {
    if n == 0 then [] else Waits(base, n - 1) + [CalculateBackoff(base, n)]
  }

  function Sum(w: seq<int>): int {
    if w == [] then 0 else Sum(w[..|w| - 1]) + w[|w| - 1]
  }

  lemma AddProducts(a: int, b: int, c: int, total: int, first: int, second: int)
    requires first == a * b && second == a * c && total == b + c
    ensures first + second == a * total
  {
  }

  /** The total wait of m retries, in bases. */
  function Total(m: nat): nat {
    PowerMonotone(0, m);
    if m <= 11 then Power2(m) - 1 else 2047 + 1024 * (m - 11)
  }

  lemma TotalStep(m: nat)
    requires m > 0
    ensures Total(m) == Total(m - 1) + Power2(Shift(m))
  {
    PowersOfTwo();
    assert Power2(11) == 2 * Power2(10);
  }

  lemma WaitsStep(base: int, m: nat)
    requires m > 0
    ensures Sum(Waits(base, m)) == Sum(Waits(base, m - 1)) + CalculateBackoff(base, m)
  {
    assert Waits(base, m)[..m - 1] == Waits(base, m - 1);
  }

  lemma {:induction false} TotalWait(base: nat, m: nat)
    requires base <= (INT64_LIMIT - 1) / 1024
    ensures Sum(Waits(base, m)) == base * Total(m)
  {
    if m > 0 {
      TotalWait(base, m - 1);
      WaitsStep(base, m);
      BackoffExact(base, m);
      TotalStep(m);
      AddProducts(base, Total(m - 1), Power2(Shift(m)), Total(m), Sum(Waits(base, m - 1)), CalculateBackoff(base, m));
    }
  }

  /** m retries wait base*(2^m - 1) in all up to the eleventh, then 1024 bases more each. */
  lemma TotalWaitClosedForm(base: nat, m: nat)
    requires base <= (INT64_LIMIT - 1) / 1024
    ensures m <= 11 ==> Sum(Waits(base, m)) == base * (Power2(m) - 1)
    ensures m > 11 ==> Sum(Waits(base, m)) == base * (2047 + 1024 * (m - 11))
  {
    TotalWait(base, m);
  }

  /** Attempts a run may make: at least one is always made. */
  function Limit(maxRetries: int): nat {
    if maxRetries < 1 then 1 else maxRetries
  }

  // In what follows succeeds(i) is the result of call i, and cancelled(i) tells that the
  // context ended during the wait after call i.
  datatype Outcome = Outcome(calls: nat, waits: seq<int>, recorded: bool)

  predicate Continues(i: nat, succeeds: nat -> bool, cancelled: nat -> bool) {
    !succeeds(i) && !cancelled(i)
  }

  class Runner {
    const baseBackoff: int
    const maxRetries: int

    constructor (baseBackoff: int, maxRetries: int)
      ensures this.baseBackoff == baseBackoff && this.maxRetries == maxRetries
    {
      this.baseBackoff, this.maxRetries := baseBackoff, maxRetries;
    }

    /** Calls the job until it succeeds, the limit is reached or the context ends. A failure
        is recorded exactly when every one of the allowed calls was made and failed. */
    method RunWithRetry(succeeds: nat -> bool, cancelled: nat -> bool) returns (o: Outcome)
      ensures 1 <= o.calls <= Limit(maxRetries)
      ensures forall i: nat :: i < o.calls - 1 ==> Continues(i, succeeds, cancelled)
      ensures o.recorded <==> !succeeds(o.calls - 1) && o.calls == Limit(maxRetries)
      ensures !o.recorded ==> succeeds(o.calls - 1) || cancelled(o.calls - 1)
      ensures o.waits == Waits(baseBackoff, if succeeds(o.calls - 1) || o.recorded then o.calls - 1 else o.calls)
    {
      var attempts: nat := 0;
      var waits := [];
      while true
        invariant 0 <= attempts < Limit(maxRetries)
        invariant waits == Waits(baseBackoff, attempts)
        invariant forall i: nat :: i < attempts ==> Continues(i, succeeds, cancelled)
        decreases Limit(maxRetries) - attempts
      {
        if succeeds(attempts) {
          return Outcome(attempts + 1, waits, false);
        }
        attempts := attempts + 1;
        if attempts >= maxRetries {
          return Outcome(attempts, waits, true);
        }
        var backoff := CalculateBackoff(baseBackoff, attempts);
        waits := waits + [backoff];
        if cancelled(attempts - 1) {
          return Outcome(attempts, waits, false);
        }
      }
    }
  }
}
