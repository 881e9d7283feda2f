/**
 The retry policy and the backoff calculator `calculateBackoff`: exponential
 growth from the initial backoff, clamped to the maximum, then a symmetric
 jitter, then floored at zero. Durations are nanoseconds, as in Go's
 `time.Duration`; the floating-point computation is carried out exactly on reals.
 */
module Backoff {

  /** Go's `retry.Config`. */
  datatype Config = Config(
    maxRetries: int,      // total number of invocations allowed
    initialBackoff: int,  // nanoseconds
    maxBackoff: int,      // nanoseconds
    backoffFactor: real,
    jitterFactor: real
  )

  const Millisecond: int := 1_000_000
  const Second: int := 1_000 * Millisecond

  /** `retry.DefaultConfig()`. */
  const DefaultConfig: Config := Config(3, 10 * Millisecond, 10 * Millisecond, 1.5, 0.1)

  /** A value drawn by `rand.Float64()`: uniform in [0, 1). */
  type UnitInterval = u: real | 0.0 <= u < 1.0

  function Pow(b: real, n: nat): real
  {
    if n == 0 then 1.0 else b * Pow(b, n - 1)
  }

  function Min(a: real, b: real): real
  {
    if a <= b then a else b
  }

  function Abs(x: real): real
  {
    if x < 0.0 then -x else x
  }

  /** The unclamped exponential `Initial * Factor^attempt`. */
  function Raw(attempt: nat, cfg: Config): real
  {
    cfg.initialBackoff as real * Pow(cfg.backoffFactor, attempt)
  }

  /** The clamped exponential `min(Initial * Factor^attempt, MaxBackoff)`, before jitter. */
  function Capped(attempt: nat, cfg: Config): real
  {
    Min(Raw(attempt, cfg), cfg.maxBackoff as real)
  }

  /**
   `calculateBackoff(attempt, config)` with the random draw `u` passed in.
   The result is never negative, jitter moves it by at most half the jitter
   factor times the clamped value, and without jitter it is exactly the
   clamped exponential.
   */
  function CalculateBackoff(attempt: nat, cfg: Config, u: UnitInterval): (r: real)
    ensures r >= 0.0
    ensures cfg.jitterFactor == 0.0 && Capped(attempt, cfg) >= 0.0 ==> r == Capped(attempt, cfg)
    ensures cfg.jitterFactor == 0.0 && Capped(attempt, cfg) < 0.0 ==> r == 0.0
    ensures cfg.jitterFactor >= 0.0 && Capped(attempt, cfg) >= 0.0 ==>
              Abs(r - Capped(attempt, cfg)) <= cfg.jitterFactor * Capped(attempt, cfg) / 2.0
    ensures cfg.jitterFactor >= 0.0 && Capped(attempt, cfg) >= 0.0 ==>
              r <= cfg.maxBackoff as real * (1.0 + cfg.jitterFactor / 2.0)
  {
    var backoff := Raw(attempt, cfg);
    var capped := if backoff > cfg.maxBackoff as real then cfg.maxBackoff as real else backoff;
    assert capped == Capped(attempt, cfg);
    Jitter(capped, cfg.jitterFactor, u)
  }

  /**
   The jitter step: add `(u - 0.5) * factor * capped` and floor the sum at zero.
   The result stays within half the factor times the clamped value.
   */
  function Jitter(capped: real, factor: real, u: UnitInterval): (r: real)
    ensures r >= 0.0
    ensures factor == 0.0 && capped >= 0.0 ==> r == capped
    ensures factor == 0.0 && capped < 0.0 ==> r == 0.0
    ensures factor >= 0.0 && capped >= 0.0 ==> Abs(r - capped) <= factor * capped / 2.0
  {
    var jitter := (u - 0.5) * factor * capped;
    JitterBound(u, factor, capped);
    var finalBackoff := capped + jitter;
    if finalBackoff < 0.0 then 0.0 else finalBackoff
  }

  /** The jitter term is at most half the jitter factor times the clamped value. */
  lemma JitterBound(u: UnitInterval, j: real, c: real)
    ensures j >= 0.0 && c >= 0.0 ==> Abs((u - 0.5) * j * c) <= j * c / 2.0
  {
    if j >= 0.0 && c >= 0.0 {
      var jc := j * c;
      var d := u - 0.5;
      assert jc >= 0.0;
      assert d * j * c == d * jc;
      if d >= 0.0 {
        assert d * jc >= 0.0;
        assert (0.5 - d) * jc >= 0.0;
        assert d * jc <= 0.5 * jc;
      } else {
        assert (0.5 + d) * jc >= 0.0;
        assert -(d * jc) == (-d) * jc;
        assert (-d) * jc <= 0.5 * jc;
      }
    }
  }

  /** A factor of at least one never shrinks the power, and each step multiplies it again. */
  lemma {:induction false} PowGrows(b: real, n: nat)
    requires b >= 1.0
    ensures Pow(b, n) >= 1.0
    ensures Pow(b, n + 1) >= Pow(b, n)
  {
    if n > 0 {
      PowGrows(b, n - 1);
    }
    assert Pow(b, n + 1) == b * Pow(b, n);
    assert (b - 1.0) * Pow(b, n) >= 0.0;
  }

  /** Powers grow with the exponent when the factor is at least one. */
  lemma {:induction false} PowMonotone(b: real, m: nat, n: nat)
    requires b >= 1.0 && m <= n
    ensures Pow(b, m) <= Pow(b, n)
    decreases n - m
  {
    if m < n {
      PowGrows(b, m);
      PowMonotone(b, m + 1, n);
    }
  }

  /** The ordinary shape of a policy: non-negative durations and a factor of at least one. */
  predicate Growing(cfg: Config)
  {
    cfg.initialBackoff >= 0 && cfg.maxBackoff >= 0 && cfg.backoffFactor >= 1.0
  }

  /**
   Without jitter the backoff never decreases from one attempt to a later one,
   and once the exponential reaches the maximum it stays there.
   */
  lemma BackoffMonotone(m: nat, n: nat, cfg: Config, u: UnitInterval, v: UnitInterval)
    requires Growing(cfg) && cfg.jitterFactor == 0.0 && m <= n
    ensures CalculateBackoff(m, cfg, u) <= CalculateBackoff(n, cfg, v)
    ensures Raw(m, cfg) >= cfg.maxBackoff as real ==> CalculateBackoff(n, cfg, v) == cfg.maxBackoff as real
  {
    RawMonotone(m, n, cfg);
  }

  /** The unclamped exponential is non-negative and grows with the attempt. */
  lemma RawMonotone(m: nat, n: nat, cfg: Config)
    requires Growing(cfg) && m <= n
    ensures 0.0 <= Raw(m, cfg) <= Raw(n, cfg)
  {
    PowMonotone(cfg.backoffFactor, m, n);
    PowGrows(cfg.backoffFactor, m);
    Scale(cfg.initialBackoff as real, Pow(cfg.backoffFactor, m), Pow(cfg.backoffFactor, n));
  }

  /** Multiplying by a non-negative factor keeps the order. */
  lemma Scale(i: real, a: real, b: real)
    requires i >= 0.0 && 0.0 <= a <= b
    ensures 0.0 <= i * a <= i * b
  {
  }

  /** Without jitter and for non-negative durations, a factor of one gives a constant backoff: the initial one, clamped. */
  lemma {:induction false} ConstantBackoff(attempt: nat, cfg: Config, u: UnitInterval)
    requires cfg.backoffFactor == 1.0 && cfg.jitterFactor == 0.0
    requires cfg.initialBackoff >= 0 && cfg.maxBackoff >= 0
    ensures CalculateBackoff(attempt, cfg, u) == Min(cfg.initialBackoff as real, cfg.maxBackoff as real)
  {
    PowGrows(1.0, attempt);
    PowOfOne(attempt);
  }

  lemma {:induction false} PowOfOne(n: nat)
    ensures Pow(1.0, n) == 1.0
  {
    if n > 0 {
      PowOfOne(n - 1);
    }
  }

  /**
   The table of the Go backoff test: 100ms doubling without jitter, capped at
   5s, gives 100ms, 200ms, 400ms, 800ms and, at attempt 10, the 5s cap.
   */
  lemma BackoffTable(u: UnitInterval)
    ensures var cfg := Config(0, 100 * Millisecond, 5 * Second, 2.0, 0.0);
      && CalculateBackoff(0, cfg, u) == (100 * Millisecond) as real
      && CalculateBackoff(1, cfg, u) == (200 * Millisecond) as real
      && CalculateBackoff(2, cfg, u) == (400 * Millisecond) as real
      && CalculateBackoff(3, cfg, u) == (800 * Millisecond) as real
      && CalculateBackoff(10, cfg, u) == (5 * Second) as real
  {
  }

  /** With the default policy every backoff lies within 5% of 10ms. */
  lemma DefaultBackoffBounds(attempt: nat, u: UnitInterval)
    ensures 9_500_000.0 <= CalculateBackoff(attempt, DefaultConfig, u) <= 10_500_000.0
  {
    PowGrows(1.5, attempt);
    assert Capped(attempt, DefaultConfig) == (10 * Millisecond) as real;
    JitterBound(u, 0.1, (10 * Millisecond) as real);
  }
}
