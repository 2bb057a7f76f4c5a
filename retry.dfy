/** The retry executor (`worker_function`) as a specification: given the job's
    starting attempts, the global ceiling and backoff base it reads, and the
    outcomes its successive command runs would have, what it returns, the
    attempts count it ends with and the delays it sleeps. */
module Retry {
  import opened Jobs

  /** What one run of the executor produces. */
  datatype Run = Run(ok: bool, attempts: nat, delays: seq<int>)

  /** Whether the k-th command execution of this run exits with status 0;
      executions beyond the recorded outcomes count as failures. */
  function Succeeds(outcomes: seq<bool>, k: nat): bool {
    k < |outcomes| && outcomes[k]
  }

  function Tail(outcomes: seq<bool>): seq<bool> {
    if outcomes == [] then [] else outcomes[1..]
  }

  /** The loop of `worker_function`, one iteration per call: while attempts are
      below the ceiling, count an attempt, run the command, stop on success, and
      otherwise sleep `base ** attempts` before looping again. */
  function Retry(attempts: nat, ceiling: int, base: int, outcomes: seq<bool>): (r: Run)
    ensures attempts <= r.attempts
    ensures r.attempts > attempts ==> r.attempts <= ceiling
    ensures r.ok ==> r.attempts > attempts
    ensures |r.delays| == r.attempts - attempts - (if r.ok then 1 else 0)
    decreases ceiling - attempts
  {
    if attempts >= ceiling then Run(false, attempts, [])
    else if Succeeds(outcomes, 0) then Run(true, attempts + 1, [])
    else
      var rest := Retry(attempts + 1, ceiling, base, Tail(outcomes));
      rest.(delays := [Pow(base, attempts + 1)] + rest.delays)
  }

  /** The number of executions the ceiling allows from `attempts`. */
  function Budget(attempts: nat, ceiling: int): nat {
    if attempts < ceiling then ceiling - attempts else 0
  }

  /** The index of the first successful execution among the first n, or n. */
  function FirstSuccess(outcomes: seq<bool>, n: nat): (k: nat)
    ensures k <= n
    ensures k < n ==> Succeeds(outcomes, k)
    ensures forall i | 0 <= i < k :: !Succeeds(outcomes, i)
  {
    if n == 0 then 0
    else
      var k := FirstSuccess(outcomes, n - 1);
      if k < n - 1 || Succeeds(outcomes, n - 1) then k else n
  }

  /** The backoff delays slept after failed attempts number a+1 .. a+count. */
  function Backoff(base: int, a: nat, count: nat): (d: seq<int>)
    ensures |d| == count
    ensures forall i | 0 <= i < count :: d[i] == Pow(base, a + i + 1)
  {
    seq(count, i requires 0 <= i < count => Pow(base, a + i + 1))
  }

  /** An independent statement of the run: it succeeds exactly when one of the
      budgeted executions succeeds, counts one attempt per execution up to and
      including the first success, and sleeps once after every failed one. */
  function Expected(attempts: nat, ceiling: int, base: int, outcomes: seq<bool>): Run {
    var n := Budget(attempts, ceiling);
    var k := FirstSuccess(outcomes, n);
    if k < n then Run(true, attempts + k + 1, Backoff(base, attempts, k))
    else Run(false, attempts + n, Backoff(base, attempts, n))
  }

  lemma {:induction false} FirstSuccessShift(outcomes: seq<bool>, n: nat)
    requires n > 0 && !Succeeds(outcomes, 0)
    ensures FirstSuccess(outcomes, n) == FirstSuccess(Tail(outcomes), n - 1) + 1
  {
    assert forall i: nat :: Succeeds(Tail(outcomes), i) == Succeeds(outcomes, i + 1);
    if n > 1 {
      FirstSuccessShift(outcomes, n - 1);
    }
  }

  /** The loop agrees with the independent statement on every input. */
  lemma {:induction false} RetryMatchesExpected(attempts: nat, ceiling: int, base: int, outcomes: seq<bool>)
    ensures Retry(attempts, ceiling, base, outcomes) == Expected(attempts, ceiling, base, outcomes)
    decreases ceiling - attempts
  {
    var n := Budget(attempts, ceiling);
    if attempts >= ceiling {
    } else if Succeeds(outcomes, 0) {
      assert FirstSuccess(outcomes, n) == 0;
    } else {
      RetryMatchesExpected(attempts + 1, ceiling, base, Tail(outcomes));
      FirstSuccessShift(outcomes, n);
      var k := FirstSuccess(Tail(outcomes), n - 1);
      var tailRun := Expected(attempts + 1, ceiling, base, Tail(outcomes));
      var m := if k < n - 1 then k else n - 1;
      assert tailRun.delays == Backoff(base, attempts + 1, m);
      assert [Pow(base, attempts + 1)] + Backoff(base, attempts + 1, m) == Backoff(base, attempts, m + 1);
    }
  }

  /** The attempts counter never drops and never passes the larger of its
      starting value and the ceiling; each execution adds exactly one. */
  lemma AttemptsBound(attempts: nat, ceiling: int, base: int, outcomes: seq<bool>)
    ensures var r := Retry(attempts, ceiling, base, outcomes);
      && attempts <= r.attempts
      && (r.attempts <= ceiling || r.attempts == attempts)
      && r.attempts - attempts <= Budget(attempts, ceiling)
  {
    RetryMatchesExpected(attempts, ceiling, base, outcomes);
  }

  /** At or above the ceiling the loop body never runs: the command is not
      executed, nothing is slept, and the run fails with attempts unchanged. */
  lemma AtCeiling(attempts: nat, ceiling: int, base: int, outcomes: seq<bool>)
    requires attempts >= ceiling
    ensures Retry(attempts, ceiling, base, outcomes) == Run(false, attempts, [])
  {
  }

  /** The run returns success exactly when one of its budgeted executions
      succeeds; it then stops at the first one, and the attempts counter equals
      the start plus the executions made. */
  lemma StopsAtFirstSuccess(attempts: nat, ceiling: int, base: int, outcomes: seq<bool>)
    ensures var r := Retry(attempts, ceiling, base, outcomes);
      && (r.ok <==> exists i :: 0 <= i < Budget(attempts, ceiling) && Succeeds(outcomes, i))
      && (r.ok ==> r.attempts > attempts && Succeeds(outcomes, r.attempts - attempts - 1))
      && (forall i | 0 <= i < r.attempts - attempts - (if r.ok then 1 else 0) :: !Succeeds(outcomes, i))
      && (!r.ok ==> r.attempts == attempts + Budget(attempts, ceiling))
  {
    RetryMatchesExpected(attempts, ceiling, base, outcomes);
  }

  /** One delay per failed execution, the i-th being `base ** (attempts + i + 1)`;
      a run that exhausts its budget also sleeps after its last attempt. */
  lemma ExactDelays(attempts: nat, ceiling: int, base: int, outcomes: seq<bool>)
    ensures var r := Retry(attempts, ceiling, base, outcomes);
      && |r.delays| == r.attempts - attempts - (if r.ok then 1 else 0)
      && (forall i | 0 <= i < |r.delays| :: r.delays[i] == Pow(base, attempts + i + 1))
  {
    RetryMatchesExpected(attempts, ceiling, base, outcomes);
  }

  /** A command that always fails, started from 0 attempts, sleeps
      base^1 .. base^ceiling and fails with attempts equal to the ceiling. */
  lemma AlwaysFailing(ceiling: nat, base: int, outcomes: seq<bool>)
    requires forall i | 0 <= i < |outcomes| :: !outcomes[i]
    ensures var r := Retry(0, ceiling, base, outcomes);
      && !r.ok && r.attempts == ceiling && |r.delays| == ceiling
      && forall i | 0 <= i < ceiling :: r.delays[i] == Pow(base, i + 1)
  {
    RetryMatchesExpected(0, ceiling, base, outcomes);
    assert FirstSuccess(outcomes, ceiling) == ceiling;
  }

  /** A command that fails once and then succeeds ends after two attempts
      with a single delay of base^1, provided the ceiling allows two. */
  lemma SucceedsOnSecondAttempt(ceiling: int, base: int)
    requires ceiling >= 2
    ensures Retry(0, ceiling, base, [false, true]) == Run(true, 2, [base])
  {
    assert Tail([false, true]) == [true];
    assert Pow(base, 1) == base;
    assert Retry(1, ceiling, base, [true]) == Run(true, 2, []);
  }

  lemma {:induction false} PowAtLeastOne(b: int, e: nat)
    requires b >= 1
    ensures Pow(b, e) >= 1
  {
    if e > 0 {
      PowAtLeastOne(b, e - 1);
      assert b * Pow(b, e - 1) >= Pow(b, e - 1);
    }
  }

  /** Raising the exponent never lowers the power of a base of at least 1,
      and strictly raises it for a base of at least 2. */
  lemma {:induction false} PowGrows(b: int, e: nat, f: nat)
    requires b >= 1 && e <= f
    ensures Pow(b, e) <= Pow(b, f)
    ensures b >= 2 && e < f ==> Pow(b, e) < Pow(b, f)
    decreases f - e
  {
    if e < f {
      PowGrows(b, e + 1, f);
      PowAtLeastOne(b, e);
      var p := Pow(b, e);
      assert Pow(b, e + 1) == b * p;
      assert b * p >= p && (b >= 2 ==> b * p > p) by {
        assert b * p - p == (b - 1) * p;
      }
    }
  }

  /** With a base of at least 1 the backoff delays of a run are at least 1 and
      never shrink from one failure to the next; with a base of at least 2
      (the default) each delay is longer than the one before. */
  lemma BackoffNeverShrinks(attempts: nat, ceiling: int, base: int, outcomes: seq<bool>)
    requires base >= 1
    ensures var r := Retry(attempts, ceiling, base, outcomes);
      && (forall i | 0 <= i < |r.delays| :: r.delays[i] >= 1)
      && (forall i, j | 0 <= i <= j < |r.delays| :: r.delays[i] <= r.delays[j])
      && (base >= 2 ==> forall i, j | 0 <= i < j < |r.delays| :: r.delays[i] < r.delays[j])
  {
    var r := Retry(attempts, ceiling, base, outcomes);
    ExactDelays(attempts, ceiling, base, outcomes);
    forall i | 0 <= i < |r.delays| ensures r.delays[i] >= 1 {
      PowAtLeastOne(base, attempts + i + 1);
    }
    forall i, j | 0 <= i <= j < |r.delays|
      ensures r.delays[i] <= r.delays[j]
      ensures base >= 2 && i < j ==> r.delays[i] < r.delays[j]
    {
      PowGrows(base, attempts + i + 1, attempts + j + 1);
    }
  }
}
