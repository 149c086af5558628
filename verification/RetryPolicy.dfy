/** The bounded, jittered backoff shared by the job queue and the outbox. */
module RetryPolicy {

  datatype Policy = Policy(maxAttempts: nat, baseDelayMs: nat, maxDelayMs: nat)

  predicate HasAttemptsRemaining(attempt: int, maxAttempts: int) {
    attempt < maxAttempts
  }

  function Pow2(exponent: nat): (p: int)
    ensures p >= 1
  {
    if exponent == 0 then 1 else 2 * Pow2(exponent - 1)
  }

  function Min(a: int, b: int): int {
    if a <= b then a else b
  }

  /** `Math.round`: the nearest integer, halves upward. */
  function Round(x: real): int {
    (x + 0.5).Floor
  }

  /** The exponential term, capped before the jitter applies. */
  function Exponential(attempt: int, policy: Policy): int
    requires attempt >= 1
  {
    Min(policy.maxDelayMs, policy.baseDelayMs * Pow2(attempt - 1))
  }

  /** The term multiplied by a factor between a half and one. */
  function Jittered(exponential: int, random: real): real {
    exponential as real * (0.5 + random * 0.5)
  }

  function BackoffDelayMs(attempt: int, policy: Policy, random: real): int
    requires attempt >= 1 && 0.0 <= random < 1.0
  {
    var delay := Round(Jittered(Exponential(attempt, policy), random));
    if delay >= 0 then delay else 0
  }

  lemma JitterBounds(cap: nat, random: real)
    requires 0.0 <= random < 1.0
    ensures cap as real * 0.5 <= Jittered(cap, random) <= cap as real
  {
    var c, j := cap as real, 0.5 + random * 0.5;
    assert 0.5 <= j <= 1.0;
    assert c * (j - 0.5) >= 0.0 && c * (1.0 - j) >= 0.0;
  }

  lemma RoundBounds(x: real, cap: int)
    requires cap as real * 0.5 <= x <= cap as real
    ensures cap <= 2 * Round(x) && Round(x) <= cap
  {
    var r := Round(x);
    assert x - 0.5 < r as real <= x + 0.5;
    assert (2 * r) as real > (cap - 1) as real;
    assert r as real < (cap + 1) as real;
  }

  lemma ExponentialBounds(attempt: int, policy: Policy)
    requires attempt >= 1
    ensures 0 <= Exponential(attempt, policy) <= policy.maxDelayMs
  {
    assert policy.baseDelayMs * Pow2(attempt - 1) >= 0;
  }

  /** The delay stays between half the capped exponential and all of it, so it never exceeds the cap. */
  lemma BackoffBounds(attempt: int, policy: Policy, random: real)
    requires attempt >= 1 && 0.0 <= random < 1.0
    ensures Exponential(attempt, policy) <= 2 * BackoffDelayMs(attempt, policy, random)
    ensures BackoffDelayMs(attempt, policy, random) <= Exponential(attempt, policy) <= policy.maxDelayMs
  {
    hide Round, Exponential, Jittered;
    ExponentialBounds(attempt, policy);
    var cap := Exponential(attempt, policy);
    JitterBounds(cap, random);
    RoundBounds(Jittered(cap, random), cap);
  }

  lemma JitterGrows(a: int, b: int, random: real)
    requires 0.0 <= random < 1.0 && a <= b
    ensures Jittered(a, random) <= Jittered(b, random)
  {
    assert (b - a) as real * (0.5 + random * 0.5) >= 0.0;
  }

  /** With the same jitter a later attempt never waits less. */
  lemma BackoffGrows(attempt: int, policy: Policy, random: real)
    requires attempt >= 1 && 0.0 <= random < 1.0
    ensures BackoffDelayMs(attempt, policy, random) <= BackoffDelayMs(attempt + 1, policy, random)
  {
    var term := policy.baseDelayMs * Pow2(attempt - 1);
    assert policy.baseDelayMs * Pow2(attempt) == 2 * term && term >= 0;
    assert Exponential(attempt, policy) <= Exponential(attempt + 1, policy);
    hide Exponential, Jittered;
    JitterGrows(Exponential(attempt, policy), Exponential(attempt + 1, policy), random);
  }
  /** The first delay is the base delay, capped, times the jitter, to the nearest millisecond, halves upward. */
  lemma FirstDelay(policy: Policy, random: real)
    requires 0.0 <= random < 1.0
    ensures var capped := if policy.baseDelayMs <= policy.maxDelayMs then policy.baseDelayMs else policy.maxDelayMs;
      var delay := BackoffDelayMs(1, policy, random) as real;
      delay - 0.5 <= capped as real * (0.5 + random * 0.5) < delay + 0.5
  {
    var capped := Exponential(1, policy);
    assert Pow2(0) == 1;
    JitterBounds(capped, random);
  }

  /** Each later attempt waits as the one before would with twice the base delay. */
  lemma BackoffDoubles(attempt: int, policy: Policy, random: real)
    requires attempt >= 1 && 0.0 <= random < 1.0
    ensures BackoffDelayMs(attempt + 1, policy, random)
         == BackoffDelayMs(attempt, policy.(baseDelayMs := 2 * policy.baseDelayMs), random)
  {
    assert policy.baseDelayMs * Pow2(attempt) == 2 * policy.baseDelayMs * Pow2(attempt - 1);
  }
}
