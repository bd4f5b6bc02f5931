/** The retry wait after repeated failures, in 64-bit saturating arithmetic. */
module Backoff {
  import opened Wrappers

  const I32_MAX := 0x7FFF_FFFF
  const I64_MAX := 0x7FFF_FFFF_FFFF_FFFF
  const I64_MIN := -0x8000_0000_0000_0000

  function Saturate(x: int): int {
    if x > I64_MAX then I64_MAX else if x < I64_MIN then I64_MIN else x
  }

  function Pow2(k: nat): (r: nat)
    ensures r >= 1
  {
    if k == 0 then 1 else 2 * Pow2(k - 1)
  }

  function Min(a: int, b: int): int { if a <= b then a else b }

  function SaturatingMul(a: int, b: int): int { Saturate(a * b) }

  function SaturatingPow2(k: nat): int { Saturate(Pow2(k)) }

  function BackoffSeconds(failures: int, base: int, max: int): Option<int> {
    if failures < 2 then None
    else
      var multiplier := if failures == 2 then 1 else SaturatingMul(3, SaturatingPow2(failures - 3));
      Some(Min(SaturatingMul(base, multiplier), max))
  }

  function BackoffUntil(completedAt: int, failures: int, base: int, max: int): Option<int> {
    match BackoffSeconds(failures, base, max)
    case None => None
    case Some(seconds) => Some(completedAt + seconds)
  }

  /** The intended multiplier, in unbounded integers. */
  function Multiplier(failures: int): (m: nat)
    requires failures >= 2
    ensures m >= 1
  {
    if failures == 2 then 1 else 3 * Pow2(failures - 3)
  }

  function IdealWait(failures: int, base: int, max: int): int
    requires failures >= 2
  {
    Min(base * Multiplier(failures), max)
  }

  ghost predicate Limits(base: int, max: int) {
    1 <= base <= I64_MAX && 1 <= max <= I64_MAX
  }

  lemma MulAtLeast(base: int, m: int, bound: int)
    requires base >= 1 && m >= bound >= 0
    ensures base * m >= bound
  {
  }

  /** Saturation never shows: every wait is the intended one, however many failures came before. */
  lemma BackoffIsExact(failures: int, base: int, max: int)
    requires failures >= 2 && Limits(base, max)
    ensures BackoffSeconds(failures, base, max) == Some(IdealWait(failures, base, max))
  {
    if failures > 2 {
      var power := Pow2(failures - 3);
      var multiplier := SaturatingMul(3, SaturatingPow2(failures - 3));
      if 3 * power <= I64_MAX {
        assert multiplier == 3 * power;
      } else {
        assert multiplier == I64_MAX;
        MulAtLeast(base, multiplier, I64_MAX);
        MulAtLeast(base, 3 * power, I64_MAX);
      }
    }
  }

  lemma {:induction false} Pow2Monotone(j: nat, k: nat)
    requires j <= k
    ensures Pow2(j) <= Pow2(k)
    decreases k
  {
    if j < k {
      Pow2Monotone(j, k - 1);
    }
  }

  /** More failures never wait less, and no wait exceeds the cap or falls below a second. */
  lemma BackoffNeverShrinks(fewer: int, more: int, base: int, max: int)
    requires 2 <= fewer <= more && Limits(base, max)
    ensures BackoffSeconds(fewer, base, max).Some? && BackoffSeconds(more, base, max).Some?
    ensures 1 <= BackoffSeconds(fewer, base, max).value <= BackoffSeconds(more, base, max).value <= max
  {
    BackoffIsExact(fewer, base, max);
    BackoffIsExact(more, base, max);
    if fewer > 2 {
      Pow2Monotone(fewer - 3, more - 3);
    }
    MulAtLeast(base, Multiplier(fewer), 1);
    MulOrdered(base, Multiplier(fewer), Multiplier(more));
  }

  lemma MulOrdered(base: int, m: int, n: int)
    requires base >= 1 && m <= n
    ensures base * m <= base * n
  {
  }

  function SumOfWaits(failures: int, base: int): int
    requires failures >= 2
  {
    if failures == 2 then base else SumOfWaits(failures - 1, base) + base * Multiplier(failures)
  }

  /** The uncapped waits from the second failure on add up in closed form. */
  lemma {:induction false} SumOfWaitsClosedForm(failures: int, base: int)
    requires failures >= 2
    ensures SumOfWaits(failures, base) == base * (3 * Pow2(failures - 2) - 2)
    decreases failures
  {
    if failures > 2 {
      SumOfWaitsClosedForm(failures - 1, base);
      var p := Pow2(failures - 3);
      assert Pow2(failures - 2) == 2 * p;
      assert base * (3 * p - 2) + base * (3 * p) == base * (6 * p - 2);
    }
  }
}
