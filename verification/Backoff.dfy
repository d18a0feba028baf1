/** Exponential backoff (internal/backoff/backoff.go). Durations are nanoseconds; float64 products are exact real
    products, truncated toward zero as the conversion to time.Duration does. */
module Backoff {

  datatype Config = Config(steps: int, duration: int, factor: real, jitter: real, cap: int)

  function DefaultConfig(): Config {
    Config(5, 100_000_000, 2.0, 0.1, 30_000_000_000)
  }

  function Truncate(x: real): int {
    if x >= 0.0 then x.Floor else -((-x).Floor)
  }

  /** time.Duration(float64(d) * x). */
  function Scale(d: int, x: real): int {
    Truncate(d as real * x)
  }

  function Half(n: int): int {
    if n >= 0 then n / 2 else -((-n) / 2)
  }

  function Capped(cfg: Config, d: int): int {
    if d > cfg.cap then cfg.cap else d
  }

  /** The duration of step k before jitter. The cap is applied inside the loop only, so never to step 0. */
  function Base(cfg: Config, k: nat): int {
    if k == 0 then cfg.duration else Capped(cfg, Scale(Base(cfg, k - 1), cfg.factor))
  }

  function WithJitter(cfg: Config, d: int): int {
    if cfg.jitter > 0.0 then d + Half(Scale(d, cfg.jitter)) else d
  }

  /** What Next answers at a step; 0 once the steps are used up. */
  function NextValue(cfg: Config, step: nat): int {
    if step >= cfg.steps then 0 else WithJitter(cfg, Base(cfg, step))
  }

  function NextStep(cfg: Config, step: nat): nat {
    if step >= cfg.steps then step else step + 1
  }

  class Backoff {
    const cfg: Config
    var step: nat

    constructor (cfg: Config)
      ensures this.cfg == cfg && step == 0
    {
      this.cfg := cfg;
      step := 0;
    }

    method Next() returns (duration: int)
      modifies this
      ensures duration == NextValue(cfg, old(step)) && step == NextStep(cfg, old(step))
    {
      if step >= cfg.steps {
        return 0;
      }
      duration := cfg.duration;
      for i := 0 to step
        invariant duration == Base(cfg, i)
        invariant step == old(step)
      {
        duration := Scale(duration, cfg.factor);
        if duration > cfg.cap {
          duration := cfg.cap;
        }
      }
      if cfg.jitter > 0.0 {
        var jitterAmount := Scale(duration, cfg.jitter);
        duration := duration + Half(jitterAmount);
      }
      step := step + 1;
    }

    method Reset()
      modifies this
      ensures step == 0
    {
      step := 0;
    }

    predicate IsExhausted()
      reads this
    {
      step >= cfg.steps
    }
  }

  // ----- closed form

  function Pow(b: int, k: nat): int {
    if k == 0 then 1 else b * Pow(b, k - 1)
  }

  function Min(a: int, b: int): int {
    if a <= b then a else b
  }

  function Max(a: int, b: int): int {
    if a <= b then b else a
  }

  lemma ScaleByInt(d: int, f: int)
    ensures Scale(d, f as real) == d * f
  {
    assert d as real * f as real == (d * f) as real;
  }

  lemma ScaleNonNegative(d: int, x: real)
    requires d >= 0 && x >= 0.0
    ensures Scale(d, x) >= 0
    ensures Scale(d, x) as real <= d as real * x
    ensures Scale(d, x) == (d as real * x).Floor
  {
  }

  lemma ScaleMonotone(a: int, b: int, x: real)
    requires 0 <= a <= b && x >= 0.0
    ensures 0 <= Scale(a, x) <= Scale(b, x)
  {
    assert b as real * x == a as real * x + (b - a) as real * x;
    assert (b - a) as real * x >= 0.0;
    ScaleNonNegative(a, x);
  }

  lemma ScaleGrows(d: int, x: real)
    requires d >= 0 && x >= 1.0
    ensures Scale(d, x) >= d
  {
    assert d as real * x == d as real + d as real * (x - 1.0);
    assert d as real * (x - 1.0) >= 0.0;
  }

  lemma MulGrows(d: int, f: int)
    requires d >= 0 && f >= 1
    ensures d * f >= d && f * d >= d
  {
    assert d * f == d + d * (f - 1);
    assert d * (f - 1) >= 0;
  }

  lemma {:induction false} PowAtLeastOne(f: int, k: nat)
    requires f >= 1
    ensures Pow(f, k) >= 1
  {
    if k > 0 {
      PowAtLeastOne(f, k - 1);
      MulGrows(Pow(f, k - 1), f);
    }
  }

  /** Multiplying a capped value and capping again is capping the product. */
  lemma CapOfProduct(cap: int, d: int, f: int)
    requires cap >= 0 && d >= 0 && f >= 1
    ensures Min(cap, Min(cap, d) * f) == Min(cap, d * f)
  {
    MulGrows(cap, f);
    MulGrows(d, f);
  }

  lemma Regroup(d: int, f: int, p: int)
    ensures (d * p) * f == d * (f * p)
  {
  }

  lemma ProductNonNegative(a: int, b: int)
    requires a >= 0 && b >= 0
    ensures a * b >= 0
  {
  }

  /** Whole factors give the textbook schedule, capped from step 1 on; step 0 is the plain duration even above the
      cap. */
  lemma {:induction false} BaseClosedForm(cfg: Config, f: int, k: nat)
    requires f >= 1 && cfg.factor == f as real && cfg.duration >= 0 && cfg.cap >= 0
    ensures Base(cfg, k) == if k == 0 then cfg.duration else Min(cfg.cap, cfg.duration * Pow(f, k))
  {
    hide Scale;
    if k > 0 {
      BaseClosedForm(cfg, f, k - 1);
      var p := Pow(f, k - 1);
      ScaleByInt(Base(cfg, k - 1), f);
      assert Base(cfg, k) == Min(cfg.cap, Base(cfg, k - 1) * f);
      PowAtLeastOne(f, k - 1);
      ProductNonNegative(cfg.duration, p);
      Regroup(cfg.duration, f, p);
      if k == 1 {
        assert Pow(f, 1) == f * Pow(f, 0) == f;
      } else {
        CapOfProduct(cfg.cap, cfg.duration * p, f);
      }
    }
  }

  lemma JitterClosedForm(cfg: Config, base: int)
    requires base >= 0 && cfg.jitter >= 0.0
    ensures WithJitter(cfg, base) == base + (base as real * cfg.jitter).Floor / 2
  {
    hide Scale;
    ScaleNonNegative(base, cfg.jitter);
    if cfg.jitter == 0.0 {
      assert base as real * 0.0 == 0.0;
      assert (0.0).Floor == 0;
    }
  }

  lemma CappedStart(cfg: Config, f: int)
    requires cfg.duration <= cfg.cap
    ensures Min(cfg.cap, cfg.duration * Pow(f, 0)) == cfg.duration
  {
    assert Pow(f, 0) == 1;
  }

  /** The whole answer for whole factors and a start below the cap. */
  lemma NextClosedForm(cfg: Config, f: int, k: nat)
    requires f >= 1 && cfg.factor == f as real && 0 <= cfg.duration <= cfg.cap && cfg.jitter >= 0.0
    ensures k < cfg.steps ==>
              var base := Min(cfg.cap, cfg.duration * Pow(f, k));
              NextValue(cfg, k) == base + (base as real * cfg.jitter).Floor / 2
    ensures k >= cfg.steps ==> NextValue(cfg, k) == 0
  {
    hide WithJitter, Pow, Min, Base;
    BaseClosedForm(cfg, f, k);
    if k == 0 { CappedStart(cfg, f); }
    BaseRange(cfg, k);
    JitterClosedForm(cfg, Base(cfg, k));
  }

  lemma {:induction false} BaseRange(cfg: Config, k: nat)
    requires cfg.duration >= 0 && cfg.cap >= 0 && cfg.factor >= 0.0
    ensures 0 <= Base(cfg, k) <= if k == 0 then cfg.duration else cfg.cap
  {
    hide Scale;
    if k > 0 {
      BaseRange(cfg, k - 1);
      ScaleNonNegative(Base(cfg, k - 1), cfg.factor);
    }
  }

  lemma {:induction false} BaseMonotone(cfg: Config, j: nat, k: nat)
    requires 0 <= cfg.duration <= cfg.cap && cfg.factor >= 1.0
    requires j <= k
    ensures Base(cfg, j) <= Base(cfg, k)
    decreases k
  {
    hide Scale;
    if j < k {
      BaseMonotone(cfg, j, k - 1);
      BaseRange(cfg, k - 1);
      ScaleGrows(Base(cfg, k - 1), cfg.factor);
    }
  }

  lemma JitterMonotone(cfg: Config, a: int, b: int)
    requires 0 <= a <= b
    ensures 0 <= WithJitter(cfg, a) <= WithJitter(cfg, b)
  {
    hide Scale;
    if cfg.jitter > 0.0 { ScaleMonotone(a, b, cfg.jitter); }
  }

  /** With any factor of at least 1 the answers never shrink before the steps run out. */
  lemma NextMonotone(cfg: Config, j: nat, k: nat)
    requires 0 <= cfg.duration <= cfg.cap && cfg.factor >= 1.0
    requires j <= k < cfg.steps
    ensures NextValue(cfg, j) <= NextValue(cfg, k)
  {
    hide Scale, WithJitter;
    BaseMonotone(cfg, j, k);
    BaseRange(cfg, j);
    JitterMonotone(cfg, Base(cfg, j), Base(cfg, k));
  }

  /** The largest duration Next can answer. */
  function Longest(cfg: Config): int {
    WithJitter(cfg, Max(cfg.duration, cfg.cap))
  }

  lemma NextBounded(cfg: Config, k: nat)
    requires cfg.duration >= 0 && cfg.cap >= 0 && cfg.factor >= 0.0
    ensures 0 <= NextValue(cfg, k) <= Longest(cfg)
  {
    hide Scale, WithJitter;
    BaseRange(cfg, k);
    JitterMonotone(cfg, Base(cfg, k), Max(cfg.duration, cfg.cap));
  }

  /** Longest is at most max(Duration, Cap) * (1 + Jitter/2). */
  lemma LongestBounded(cfg: Config)
    requires cfg.duration >= 0 && cfg.cap >= 0 && cfg.jitter >= 0.0
    ensures Longest(cfg) as real <= Max(cfg.duration, cfg.cap) as real * (1.0 + cfg.jitter / 2.0)
  {
    hide Scale;
    var m := Max(cfg.duration, cfg.cap);
    ScaleNonNegative(m, cfg.jitter);
    var t := Scale(m, cfg.jitter);
    assert (t / 2) as real <= t as real / 2.0;
    assert m as real * (1.0 + cfg.jitter / 2.0) == m as real + (m as real * cfg.jitter) / 2.0;
  }

  /** All that is left of the schedule from a step on. */
  function Total(cfg: Config, step: nat): int
    decreases cfg.steps - step
  {
    if step >= cfg.steps then 0 else NextValue(cfg, step) + Total(cfg, step + 1)
  }

  lemma {:induction false} TotalBounded(cfg: Config, step: nat)
    requires cfg.duration >= 0 && cfg.cap >= 0 && cfg.factor >= 0.0
    ensures 0 <= Total(cfg, step) <= if step >= cfg.steps then 0 else (cfg.steps - step) * Longest(cfg)
    decreases cfg.steps - step
  {
    hide NextValue, Longest;
    if step < cfg.steps {
      var bound := Longest(cfg);
      NextBounded(cfg, step);
      TotalBounded(cfg, step + 1);
      assert (cfg.steps - step) * bound == (cfg.steps - (step + 1)) * bound + bound;
    }
  }

  /** The controller's schedule: 105, 210, 420, 840 and 1680 milliseconds. */
  lemma DefaultAnswer(k: nat)
    requires k < 5
    ensures NextValue(DefaultConfig(), k) == 105_000_000 * Pow(2, k)
  {
    var cfg := DefaultConfig();
    assert Pow(2, 0) == 1 && Pow(2, 1) == 2 && Pow(2, 2) == 4 && Pow(2, 3) == 8 && Pow(2, 4) == 16;
    NextClosedForm(cfg, 2, k);
    var p := Pow(2, k);
    assert p in {1, 2, 4, 8, 16};
    assert Min(cfg.cap, cfg.duration * p) == 100_000_000 * p;
    assert (100_000_000 * p) as real * 0.1 == (10_000_000 * p) as real;
  }

  lemma DefaultTotal()
    ensures Total(DefaultConfig(), 0) == 3_255_000_000
  {
    hide NextValue;
    var cfg := DefaultConfig();
    DefaultAnswer(0);
    DefaultAnswer(1);
    DefaultAnswer(2);
    DefaultAnswer(3);
    DefaultAnswer(4);
    assert Pow(2, 0) == 1 && Pow(2, 1) == 2 && Pow(2, 2) == 4 && Pow(2, 3) == 8 && Pow(2, 4) == 16;
    assert Total(cfg, 5) == 0;
    assert Total(cfg, 3) == NextValue(cfg, 3) + NextValue(cfg, 4);
    assert Total(cfg, 1) == NextValue(cfg, 1) + NextValue(cfg, 2) + Total(cfg, 3);
  }

  /** Given more steps, the controller's schedule would level off at 30 seconds and their jitter from the tenth on. */
  lemma DefaultLevelsOff(steps: int, k: nat)
    requires 9 <= k < steps
    ensures NextValue(DefaultConfig().(steps := steps), k) == 31_500_000_000
  {
    hide Pow;
    var cfg := DefaultConfig().(steps := steps);
    NextClosedForm(cfg, 2, k);
    PowFrom9(k);
    assert cfg.duration * Pow(2, k) >= 100_000_000 * 512;
    assert Min(cfg.cap, cfg.duration * Pow(2, k)) == 30_000_000_000;
    assert 30_000_000_000 as real * 0.1 == 3_000_000_000.0;
  }

  lemma {:induction false} PowFrom9(k: nat)
    requires k >= 9
    ensures Pow(2, k) >= 512
  {
    if k == 9 {
      assert Pow(2, 3) == 8 && Pow(2, 6) == 64 && Pow(2, 9) == 512;
    } else {
      PowFrom9(k - 1);
    }
  }

  /** Conversion and halving truncate toward zero on both sides of it. */
  lemma TruncationIsOdd(d: int, x: real)
    requires d >= 0 && x >= 0.0
    ensures Scale(-d, x) == -Scale(d, x) && Half(-d) == -Half(d)
    ensures Scale(d, x) as real <= d as real * x < Scale(d, x) as real + 1.0
  {
    assert (-d) as real * x == -(d as real * x);
    assert d as real * x >= 0.0;
  }

  // ----- runs of one Backoff

  datatype Call = CallNext | CallReset

  /** The step after a run of calls. */
  function StepAfter(cfg: Config, calls: seq<Call>): nat {
    if calls == [] then 0
    else
      var before := StepAfter(cfg, calls[..|calls| - 1]);
      match calls[|calls| - 1]
      case CallNext => NextStep(cfg, before)
      case CallReset => 0
  }

  /** How many Next calls followed the last Reset. */
  function NextsSinceReset(calls: seq<Call>): nat {
    if calls == [] || calls[|calls| - 1].CallReset? then 0
    else 1 + NextsSinceReset(calls[..|calls| - 1])
  }

  lemma {:induction false} StepCountsNexts(cfg: Config, calls: seq<Call>)
    requires cfg.steps >= 0
    ensures StepAfter(cfg, calls) == Min(cfg.steps, NextsSinceReset(calls))
  {
    if calls != [] { StepCountsNexts(cfg, calls[..|calls| - 1]); }
  }

  /** In any run, the Next call that comes after k others since the last Reset gets the k-th value of the schedule,
      and 0 once k has reached the number of steps, until a Reset. */
  lemma RunAnswers(cfg: Config, calls: seq<Call>)
    requires cfg.steps >= 0
    ensures NextValue(cfg, StepAfter(cfg, calls)) == NextValue(cfg, NextsSinceReset(calls))
  {
    StepCountsNexts(cfg, calls);
  }
}
