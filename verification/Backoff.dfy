/** Capped exponential backoff over int64 durations, as both retry loops compute it
    (control-plane/internal/orchestrator/worker.go and
    control-plane/internal/providerjoin/reconciler.go hold the same five lines). */
module Backoff {
  import opened Base

  const MAX_SHIFT: nat := 16

  function Pow2(n: nat): (r: nat)
    ensures r >= 1
  {
    if n == 0 then 1 else 2 * Pow2(n - 1)
  }

  /** The delay before attempt `attempt + 1`, over unbounded integers. */
  function Delay(base: nat, max: nat, attempt: nat): (r: nat)
    requires attempt >= 1
  {
    Min(base * Pow2(Min(attempt - 1, MAX_SHIFT)), max)
  }

  lemma {:induction false} Pow2Monotone(m: nat, n: nat)
    requires m <= n
    ensures Pow2(m) <= Pow2(n)
    decreases n - m
  {
    if m < n { Pow2Monotone(m, n - 1); }
  }

  lemma DoubledProduct(base: nat, i: nat)
    ensures base * Pow2(i + 1) == 2 * (base * Pow2(i))
  {
  }

  lemma GrowingProduct(base: nat, m: nat, n: nat)
    requires m <= n
    ensures base * Pow2(m) <= base * Pow2(n)
  {
    Pow2Monotone(m, n);
  }

  /** One doubling: a wrapped or too large result means the power is past the cap. */
  lemma DoublingTells(b: nat, max: nat)
    requires 0 < b < INT64_LIMIT && max < INT64_LIMIT
    ensures var doubled := Wrap64(2 * b);
            if doubled <= 0 || doubled > max then 2 * b > max else doubled == 2 * b
  {
  }

  lemma CappedFromHere(base: nat, max: nat, i: nat, shift: nat)
    requires i <= shift && base * Pow2(i) > max
    ensures Min(base * Pow2(shift), max) == max
  {
    GrowingProduct(base, i, shift);
  }

  /** The doubling loop with its wrap-around test computes the capped power exactly. */
  method BackoffFor(base: nat, max: nat, attempt: nat) returns (backoff: nat)
    requires 0 < base < INT64_LIMIT && 0 < max < INT64_LIMIT && attempt >= 1
    ensures backoff == Delay(base, max, attempt)
  {
    var shift := attempt - 1;
    if shift > MAX_SHIFT { shift := MAX_SHIFT; }
    var b: int := base;
    var i := 0;
    ghost var power := base * Pow2(0);
    while i < shift
      invariant 0 <= i <= shift && power == base * Pow2(i)
      invariant 0 < b == power < INT64_LIMIT
    {
      DoubledProduct(base, i);
      DoublingTells(b, max);
      power := 2 * power;
      b := Wrap64(2 * b);
      i := i + 1;
      if b <= 0 || b > max {
        CappedFromHere(base, max, i, shift);
        return max;
      }
    }
    if b > max { return max; }
    return b;
  }

  /** Delays never shrink from one attempt to the next, and never exceed the cap. */
  lemma DelayMonotone(base: nat, max: nat, m: nat, n: nat)
    requires 1 <= m <= n
    ensures Delay(base, max, m) <= Delay(base, max, n) <= max
  {
    GrowingProduct(base, Min(m - 1, MAX_SHIFT), Min(n - 1, MAX_SHIFT));
  }
}
