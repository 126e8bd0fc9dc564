/** The analysis query's policy: when it runs, whether a failure is retried
    and how long to wait before the retry. */
module QueryPolicy {
  import opened Wrappers
  import DomainSearchForm

  const MaxRetries: nat := 2
  const BaseDelayMs: nat := 1000
  const MaxDelayMs: nat := 30000

  /** `enabled: !!domain && domain.length > 0`; a value that is not a string
      is `None`. */
  predicate Enabled(domain: Option<string>) {
    domain.Some? && |domain.value| > 0
  }

  /** Whatever the search form submits starts a query. */
  lemma SubmittedDomainEnabled(input: string)
    requires DomainSearchForm.HandleSubmit(input).Submit?
    ensures Enabled(Some(DomainSearchForm.HandleSubmit(input).domain))
  {
    DomainSearchForm.SubmittedDomainAccepted(input);
  }

  /** An HTTP answer in the 4xx range; `status` is `None` when the error
      carries no response. */
  predicate ClientError(status: Option<int>) {
    status.Some? && 400 <= status.value < 500
  }

  /** `retry(failureCount, error)`. */
  function ShouldRetry(failureCount: nat, status: Option<int>): (b: bool)
    ensures ClientError(status) ==> !b
    ensures !ClientError(status) ==> (b <==> failureCount < MaxRetries)
  {
    if status.Some? && status.value >= 400 && status.value < 500 then false
    else failureCount < 2
  }

  function Pow2(n: nat): (p: nat)
    ensures p >= 1
  {
    if n == 0 then 1 else 2 * Pow2(n - 1)
  }

  lemma {:induction false} Pow2Monotone(m: nat, n: nat)
    requires m <= n
    ensures Pow2(m) <= Pow2(n)
    decreases n
  {
    if m < n {
      Pow2Monotone(m, n - 1);
    }
  }

  /** `retryDelay(attemptIndex)`: doubling from one second, capped at thirty. */
  function RetryDelay(attemptIndex: nat): (d: nat)
    ensures BaseDelayMs <= d <= MaxDelayMs
    ensures attemptIndex == 0 ==> d == BaseDelayMs
    ensures attemptIndex > 0 && d < MaxDelayMs ==> d == 2 * RetryDelay(attemptIndex - 1)
  {
    var raw := BaseDelayMs * Pow2(attemptIndex);
    if raw < MaxDelayMs then raw else MaxDelayMs
  }

  /** The delay never shrinks as attempts go on. */
  lemma RetryDelayMonotone(m: nat, n: nat)
    requires m <= n
    ensures RetryDelay(m) <= RetryDelay(n)
  {
    Pow2Monotone(m, n);
  }

  /** The cap is reached at the sixth attempt and kept from then on; before
      it the delay doubles. */
  lemma {:induction false} RetryDelayCap(n: nat)
    ensures n >= 5 ==> RetryDelay(n) == MaxDelayMs
    ensures n < 4 ==> RetryDelay(n + 1) == 2 * RetryDelay(n)
  {
    assert Pow2(1) == 2 && Pow2(2) == 4 && Pow2(3) == 8 && Pow2(4) == 16 && Pow2(5) == 32;
    if n >= 5 {
      Pow2Monotone(5, n);
    }
  }

  /** What one attempt of the query function ends in. */
  datatype Attempt = Succeeded | Failed(status: Option<int>)

  /** The query's life under this policy, `outcome(k)` being the result of
      attempt `k`: after the `k`-th failure (counted from 0) the retry
      function decides, and a retry waits `RetryDelay(k)` first. Returns
      whether it succeeded, the attempts made and the total wait. */
  method RunQuery(outcome: nat -> Attempt) returns (ok: bool, attempts: nat, waited: nat)
    ensures 1 <= attempts <= MaxRetries + 1
    ensures ok <==> outcome(attempts - 1).Succeeded?
    ensures forall k :: 0 <= k < attempts - 1 ==> outcome(k).Failed? && !ClientError(outcome(k).status)
    ensures !ok ==> attempts == MaxRetries + 1 || ClientError(outcome(attempts - 1).status)
    ensures waited == if attempts == 1 then 0 else if attempts == 2 then RetryDelay(0)
                      else RetryDelay(0) + RetryDelay(1)
  {
    attempts := 0;
    waited := 0;
    while true
      invariant attempts <= MaxRetries
      invariant forall k :: 0 <= k < attempts ==> outcome(k).Failed? && !ClientError(outcome(k).status)
      invariant waited == if attempts == 0 then 0 else if attempts == 1 then RetryDelay(0)
                          else RetryDelay(0) + RetryDelay(1)
      decreases MaxRetries - attempts
    {
      var result := outcome(attempts);
      if result.Succeeded? {
        return true, attempts + 1, waited;
      }
      if !ShouldRetry(attempts, result.status) {
        return false, attempts + 1, waited;
      }
      waited := waited + RetryDelay(attempts);
      attempts := attempts + 1;
    }
  }
}
