/** The capped doubling that the breaker, the client's backoff and the worker's retry delay share. */
module Doubling {

  function Pow2(k: nat): (p: nat)
    ensures p >= 1
  {
    if k == 0 then 1 else 2 * Pow2(k - 1)
  }

  function Min(a: int, b: int): int {
    if a < b then a else b
  }

  /** The k-th wait of an uninterrupted run of failures, counted from one. */
  function Capped(base: int, cap: int, k: nat): int
    requires k >= 1
  {
    Min(base * Pow2(k - 1), cap)
  }

  lemma {:induction false} ScaledPow2Grows(base: int, j: nat, k: nat)
    requires base > 0 && j <= k
    ensures base * Pow2(j) <= base * Pow2(k)
    decreases k
  {
    if j < k {
      ScaledPow2Grows(base, j, k - 1);
      assert base * Pow2(k) == 2 * (base * Pow2(k - 1));
      assert base * Pow2(k - 1) > 0;
    }
  }

  /** Doubling once more and clamping again is the next wait, also after the cap was reached. */
  lemma CappedDoubles(base: int, cap: int, k: nat)
    requires base > 0 && cap > 0 && k >= 1
    ensures 0 < Capped(base, cap, k) <= cap
    ensures Capped(base, cap, k + 1) == Min(2 * Capped(base, cap, k), cap)
  {
    assert base * Pow2(k) == 2 * (base * Pow2(k - 1));
    assert base * Pow2(k - 1) > 0;
  }

  /** `retryDelay` before jitter: double while below the cap, then clamp. */
  method RetryDelayNominal(base: int, cap: int, attempts: int) returns (delay: int)
    requires base > 0 && cap > 0
    ensures delay == Capped(base, cap, if attempts < 1 then 1 else attempts)
  {
    delay := base;
    var i := 1;
    while i < attempts && delay < cap
      invariant 1 <= i && (i <= attempts || i == 1)
      invariant delay == base * Pow2(i - 1)
    {
      delay := delay * 2;
      i := i + 1;
    }
    if i < attempts {
      ScaledPow2Grows(base, i - 1, attempts - 1);
    }
    if delay > cap {
      delay := cap;
    }
  }

  /** `backoff` before jitter: the same law from a loop that clamps inside and leaves early. */
  method BackoffNominal(base: int, cap: int, attempt: int) returns (d: int)
    requires base > 0 && cap > 0
    ensures d == Capped(base, cap, if attempt < 1 then 1 else attempt)
  {
    d := base;
    var i := 1;
    while i < attempt
      invariant 1 <= i && (i <= attempt || i == 1)
      invariant d == base * Pow2(i - 1)
    {
      d := d * 2;
      if d >= cap {
        ScaledPow2Grows(base, i, attempt - 1);
        d := cap;
        break;
      }
      i := i + 1;
    }
    if d > cap {
      d := cap;
    }
  }

  /** Equal jitter: half of the nominal delay plus a draw from the other half. */
  method Jittered(nominal: int, draw: int) returns (delay: int)
    requires nominal >= 0 && 0 <= draw <= nominal / 2
    ensures nominal - 1 <= 2 * delay <= 2 * nominal
  {
    var half := nominal / 2;
    delay := half + draw;
  }
}
