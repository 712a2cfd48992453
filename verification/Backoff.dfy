/** Retry delays: the i64 computation and the unbounded arithmetic it stands for. */
module Backoff {
  import opened Order

  const I64_MAX := 0x7fff_ffff_ffff_ffff
  const I64_MIN := -0x8000_0000_0000_0000

  function Clamp(v: int, low: int, high: int): int
    requires low <= high
  {
    if v < low then low else if v > high then high else v
  }

  function SaturatingSub(a: int, b: int): int { Clamp(a - b, I64_MIN, I64_MAX) }

  function SaturatingMul(a: int, b: int): int { Clamp(a * b, I64_MIN, I64_MAX) }

  function Pow2(e: nat): (r: int)
    ensures r >= 1
  {
    if e == 0 then 1 else 2 * Pow2(e - 1)
  }

  /** `1_i64.checked_shl(e).unwrap_or(i64::MAX)`; a shift by 63 lands on the sign bit. */
  function ShiftedOne(e: nat): int {
    if e >= 64 then I64_MAX else if e == 63 then I64_MIN else Pow2(e)
  }

  function RetryDelaySeconds(attempt: int, baseSeconds: int, maxSeconds: int): int {
    var exponent := Clamp(SaturatingSub(attempt, 1), 0, 62);
    Min(SaturatingMul(baseSeconds, ShiftedOne(exponent)), maxSeconds)
  }

  /** The bounds that the configuration is validated against. */
  predicate ValidRetry(baseSeconds: int, maxSeconds: int) {
    1 <= baseSeconds <= 86_400 && baseSeconds <= maxSeconds <= 86_400
  }

  lemma {:induction false} Pow2Monotone(a: nat, b: nat)
    requires a <= b
    ensures Pow2(a) <= Pow2(b)
    decreases b
  {
    if a < b { Pow2Monotone(a, b - 1); }
  }

  lemma Pow2At62()
    ensures Pow2(17) == 131_072 && Pow2(62) == 0x4000_0000_0000_0000
  {
    assert Pow2(8) == 256;
    assert Pow2(17) == 131_072;
    assert Pow2(26) == 0x400_0000;
    assert Pow2(35) == 0x8_0000_0000;
    assert Pow2(44) == 0x1000_0000_0000;
    assert Pow2(53) == 0x20_0000_0000_0000;
  }

  lemma ProductAtLeast(base: int, p: int)
    requires base >= 1 && p >= 0
    ensures base * p >= p
  {
  }

  /** Clamping and saturation never show: the delay is the bounded exponential for every attempt. */
  lemma RetryDelayIsExact(attempt: int, baseSeconds: int, maxSeconds: int)
    requires 1 <= attempt <= I64_MAX && ValidRetry(baseSeconds, maxSeconds)
    ensures RetryDelaySeconds(attempt, baseSeconds, maxSeconds) == Min(baseSeconds * Pow2(attempt - 1), maxSeconds)
  {
    var e := Clamp(attempt - 1, 0, 62);
    Pow2At62();
    Pow2Monotone(e, 62);
    ProductAtLeast(baseSeconds, Pow2(e));
    ProductAtLeast(baseSeconds, Pow2(attempt - 1));
    if attempt - 1 >= 17 {
      Pow2Monotone(17, e);
      Pow2Monotone(17, attempt - 1);
    } else {
      Pow2Monotone(e, 17);
    }
  }

  /** Each delay doubles the one before it, up to the configured maximum. */
  lemma RetryDelayDoubles(attempt: int, baseSeconds: int, maxSeconds: int)
    requires 1 <= attempt < I64_MAX && ValidRetry(baseSeconds, maxSeconds)
    ensures RetryDelaySeconds(1, baseSeconds, maxSeconds) == baseSeconds
    ensures RetryDelaySeconds(attempt + 1, baseSeconds, maxSeconds)
         == Min(2 * RetryDelaySeconds(attempt, baseSeconds, maxSeconds), maxSeconds)
    ensures baseSeconds <= RetryDelaySeconds(attempt, baseSeconds, maxSeconds)
         <= RetryDelaySeconds(attempt + 1, baseSeconds, maxSeconds) <= maxSeconds
  {
    RetryDelayIsExact(1, baseSeconds, maxSeconds);
    RetryDelayIsExact(attempt, baseSeconds, maxSeconds);
    RetryDelayIsExact(attempt + 1, baseSeconds, maxSeconds);
    DoublingUnderMin(baseSeconds, Pow2(attempt - 1), maxSeconds);
  }

  lemma DoublingUnderMin(base: int, p: int, max: int)
    requires base >= 1 && p >= 1 && max >= base
    ensures Min(base * (2 * p), max) == Min(2 * Min(base * p, max), max)
    ensures base <= Min(base * p, max) <= Min(base * (2 * p), max)
  {
    var x := base * p;
    assert base * (2 * p) == 2 * x;
    ProductAtLeast(p, base);
  }
}
