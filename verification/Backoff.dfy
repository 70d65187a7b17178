/** The retry delay of the outbox worker; a `time.Duration` is a 64-bit integer. */
module Backoff {
  import opened Basics

  function Pow2(n: nat): nat {
    if n == 0 then 1 else 2 * Pow2(n - 1)
  }

  function Min(a: int, b: int): int {
    if a < b then a else b
  }

  function Doublings(attempt: int): nat {
    if attempt < 1 then 0 else attempt - 1
  }

  /** The delay before the next attempt: the base doubled once per earlier attempt, capped. */
  function Delay(base: nat, max: int, attempt: int): int {
    Min(max, base * Pow2(Doublings(attempt)))
  }

  lemma {:induction false} Pow2Grows(m: nat, n: nat)
    requires m <= n
    ensures 1 <= Pow2(m) <= Pow2(n)
  {
    if m < n {
      Pow2Grows(m, n - 1);
    } else if m > 0 {
      Pow2Grows(m - 1, m - 1);
    }
  }

  lemma ProductGrows(base: nat, x: nat, y: nat)
    requires x <= y
    ensures base * x <= base * y
  {
  }

  lemma Doubled(base: nat, n: nat)
    ensures base * Pow2(n + 1) == 2 * (base * Pow2(n))
  {
  }

  /** A later attempt never waits less, and every delay lies between the base and the cap. */
  lemma DelayIsMonotone(base: nat, max: int, attempt: int, later: int)
    requires attempt <= later
    ensures Delay(base, max, attempt) <= Delay(base, max, later)
    ensures base <= max ==> base <= Delay(base, max, attempt) <= max
  {
    var m, n := Doublings(attempt), Doublings(later);
    Pow2Grows(m, n);
    ProductGrows(base, Pow2(m), Pow2(n));
    ProductGrows(base, 1, Pow2(m));
  }

  /** `retryDelay`: no intermediate value leaves 64 bits, the result is the closed form, and the loop has
      started at most as many rounds as doublings fit below the cap, however large `attempt` is. */
  method RetryDelay(base: Int64, max: Int64, attempt: int) returns (delay: Int64, ghost rounds: nat)
    requires 0 < base
    ensures delay as int == Delay(base as nat, max as int, attempt)
    ensures rounds > 0 ==> base as nat * Pow2(rounds - 1) < max as int
  {
    var last := if attempt < 1 then 1 else attempt;
    var current := 1;
    delay := base;
    rounds := 0;
    while current < last && delay < max
      invariant 1 <= current <= last && rounds == current - 1
      invariant 0 < delay && delay as int == base as nat * Pow2(rounds)
      invariant rounds > 0 ==> base as nat * Pow2(rounds - 1) < max as int
    {
      Doubled(base as nat, rounds);
      if delay > max / 2 {
        CappedFrom(base as nat, rounds + 1, Doublings(last));
        rounds := rounds + 1;
        return max, rounds;
      }
      rounds := rounds + 1;
      delay := delay * 2;
      current := current + 1;
    }
    CappedFrom(base as nat, rounds, Doublings(last));
    if delay > max {
      return max, rounds;
    }
  }

  lemma CappedFrom(base: nat, n: nat, doublings: nat)
    requires n <= doublings
    ensures base * Pow2(n) <= base * Pow2(doublings)
  {
  }

  /** The first delay is the base, every later one twice the one before, and none exceeds the cap. */
  lemma DelaysDouble(base: nat, max: nat, attempt: int)
    ensures attempt <= 1 ==> Delay(base, max, attempt) == if base < max then base else max
    ensures attempt >= 1 ==>
      var twice := 2 * Delay(base, max, attempt);
      Delay(base, max, attempt + 1) == if twice < max then twice else max
  {
    if attempt >= 1 {
      Doubled(base, Doublings(attempt));
      assert Doublings(attempt + 1) == Doublings(attempt) + 1;
    }
  }

  /** With the default base of one second and cap of one minute: 1, 2, 4, 8, 16, 32 and then 60 seconds. */
  lemma DefaultDelays(attempt: int)
    requires attempt >= 7
    ensures Delay(1, 60, 6) == 32 && Delay(1, 60, attempt) == 60
  {
    Pow2Grows(6, Doublings(attempt));
  }
}
