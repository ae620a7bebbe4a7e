/** One run of a job: attempts, ledger rows and backoff
    (`_run_with_retries`, shared/scheduler/scheduler.py). */
module Scheduler {
  import opened Options

  /** A ledger row; the error of a failed attempt, None for a success. */
  datatype Row = Row(attempt: nat, error: Option<string>)

  function Pow2(n: nat): nat { if n == 0 then 1 else 2 * Pow2(n - 1) }

  /** `failure(k)` is the error attempt `k` raises, None if it succeeds. The rows
      are attempts 1 to k, each a failure but possibly the last; the run stops
      at the first success or after the last retry, the hook fires exactly once
      if every attempt failed and not at all otherwise, and the waits add up to
      the base times one less than a power of two. */
  method RunWithRetries(failure: nat -> Option<string>, maxRetries: nat, base: nat, hasHook: bool)
      returns (rows: seq<Row>, waited: nat, hooks: nat, result: Row)
    ensures 1 <= |rows| <= maxRetries + 1 && result == rows[|rows| - 1]
    ensures forall i | 0 <= i < |rows| :: rows[i] == Row(i + 1, failure(i + 1))
    ensures forall i | 0 <= i < |rows| - 1 :: rows[i].error.Some?
    ensures result.error.Some? <==> forall k | 1 <= k <= maxRetries + 1 :: failure(k).Some?
    ensures result.error.Some? ==> |rows| == maxRetries + 1
    ensures hooks == if hasHook && result.error.Some? then 1 else 0
    ensures waited == base * (Pow2(|rows| - 1) - 1)
  {
    rows, waited, hooks := [], 0, 0;
    var attempt := 1;
    ghost var waits: nat := 0;
    while true
      invariant 1 <= attempt <= maxRetries + 1 && |rows| == attempt - 1
      invariant forall i | 0 <= i < |rows| :: rows[i] == Row(i + 1, failure(i + 1)) && failure(i + 1).Some?
      invariant forall k | 1 <= k < attempt :: failure(k).Some?
      invariant waits + 1 == Pow2(attempt - 1) && waited == base * waits
      invariant hooks == 0
      decreases maxRetries + 2 - attempt
    {
      var error := failure(attempt);
      rows := rows + [Row(attempt, error)];
      result := rows[|rows| - 1];
      if error.None? { return; }
      if attempt > maxRetries {
        if hasHook { hooks := hooks + 1; }
        return;
      }
      waited := waited + base * Pow2(attempt - 1);
      AddWait(base, waits, Pow2(attempt - 1));
      waits := waits + Pow2(attempt - 1);
      attempt := attempt + 1;
    }
  }

  lemma AddWait(base: nat, a: nat, b: nat)
    ensures base * a + base * b == base * (a + b)
  {}
}
