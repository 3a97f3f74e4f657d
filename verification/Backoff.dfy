/** Retry delays: capped exponential backoff with bounded jitter (app/worker/backoff.py). */
module Backoff {
  import opened Prelude

  /** `base * 2 ** k`, written as k doublings. */
  function Scaled(base: real, k: nat): real {
    if k == 0 then base else 2.0 * Scaled(base, k - 1)
  }

  /** The capped delay after failed attempt `n`, before jitter. */
  function Delay(n: nat, base: real, cap: real): real
    requires n >= 1
  {
    var raw := Scaled(base, n - 1);
    if raw <= cap then raw else cap
  }

  /**
   * `uniform(0, delay * 0.1)`: the draw, cut at the end of the range. Over all draws this yields
   * every value of the range and no other.
   */
  function Jitter(delay: real, draw: Draw): (jitter: real)
    requires delay >= 0.0
    ensures 0.0 <= jitter <= 0.1 * delay
  {
    if draw <= 0.1 * delay then draw else 0.1 * delay
  }

  lemma {:induction false} ScaledMonotone(base: real, a: nat, b: nat)
    requires a <= b && base > 0.0
    ensures 0.0 < Scaled(base, a) <= Scaled(base, b)
    decreases b
  {
    if a < b {
      ScaledMonotone(base, a, b - 1);
    } else if 0 < a {
      ScaledMonotone(base, a - 1, a - 1);
    }
  }

  /** `compute_next_attempt_at`, with the clock and the random draw as inputs. */
  function NextAttemptAt(n: nat, base: real, cap: real, now: Time, draw: Draw): (at: Time)
    requires n >= 1 && base > 0.0 && cap > 0.0
    ensures now < now + Delay(n, base, cap) <= at <= now + 1.1 * Delay(n, base, cap)
    ensures at <= now + 1.1 * cap
  {
    var delay := Delay(n, base, cap);
    ScaledMonotone(base, 0, n - 1);
    now + delay + Jitter(delay, draw)
  }

  function Pow2(k: nat): nat {
    if k == 0 then 1 else 2 * Pow2(k - 1)
  }

  lemma {:induction false} ScaledIsPower(base: real, k: nat)
    ensures Scaled(base, k) == base * Pow2(k) as real
  {
    if k > 0 {
      ScaledIsPower(base, k - 1);
    }
  }

  /** After failed attempt n the retry waits for the smaller of base * 2^(n-1) and the cap, and at most a tenth more. */
  lemma NextAttemptWithin(n: nat, base: real, cap: real, now: Time, draw: Draw)
    requires n >= 1 && base > 0.0 && cap > 0.0
    ensures var at := NextAttemptAt(n, base, cap, now, draw);
      if base * Pow2(n - 1) as real <= cap
      then now + base * Pow2(n - 1) as real <= at <= now + 1.1 * (base * Pow2(n - 1) as real)
      else now + cap <= at <= now + 1.1 * cap
  {
    ScaledIsPower(base, n - 1);
  }

  /** Every wait in that range is drawn. */
  lemma EveryWaitIsDrawn(n: nat, base: real, cap: real, now: Time, at: Time)
    requires n >= 1 && base > 0.0 && cap > 0.0
    requires now + Delay(n, base, cap) <= at <= now + 1.1 * Delay(n, base, cap)
    ensures exists draw: Draw :: NextAttemptAt(n, base, cap, now, draw) == at
  {
    var draw: Draw := at - now - Delay(n, base, cap);
    assert NextAttemptAt(n, base, cap, now, draw) == at;
  }

  /** Delays never shrink from one attempt to the next. */
  lemma DelaysNondecreasing(m: nat, n: nat, base: real, cap: real)
    requires 1 <= m <= n && base > 0.0
    ensures Delay(m, base, cap) <= Delay(n, base, cap)
  {
    ScaledMonotone(base, m - 1, n - 1);
  }

  /** The sum of the capped delays after attempts 1..n. */
  function SumDelays(n: nat, base: real, cap: real): real {
    if n == 0 then 0.0 else SumDelays(n - 1, base, cap) + Delay(n, base, cap)
  }

  /** The scheduled waits after attempts 1..|draws|, one random draw each. */
  function SumWaits(draws: seq<Draw>, base: real, cap: real): real
    requires base > 0.0 && cap > 0.0
  {
    var n := |draws|;
    if n == 0 then 0.0
    else SumWaits(draws[..n - 1], base, cap) + NextAttemptAt(n, base, cap, 0.0, draws[n - 1])
  }

  /** Whatever the draws, the scheduled waits sum to between S and 1.1 S. */
  lemma {:induction false} TotalWaitBounds(draws: seq<Draw>, base: real, cap: real)
    requires base > 0.0 && cap > 0.0
    ensures SumDelays(|draws|, base, cap) <= SumWaits(draws, base, cap)
            <= 1.1 * SumDelays(|draws|, base, cap)
  {
    var n := |draws|;
    if n > 0 {
      TotalWaitBounds(draws[..n - 1], base, cap);
    }
  }

  /**
   * S is at most base * 2^n - base = base * (2^n - 1), and exactly that when and only when
   * no delay is cut by the cap.
   */
  lemma {:induction false} SumDelaysClosedForm(n: nat, base: real, cap: real)
    ensures SumDelays(n, base, cap) <= Scaled(base, n) - base
    ensures SumDelays(n, base, cap) == Scaled(base, n) - base
            <==> forall k :: 1 <= k <= n ==> Delay(k, base, cap) == Scaled(base, k - 1)
  {
    if n > 0 {
      SumDelaysClosedForm(n - 1, base, cap);
    }
  }
}
