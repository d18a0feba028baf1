/** Counter-based log sampling (Sampler in internal/logging/sampling.go). Rates are reals, counters are uint64. */
module Sampling {
  import opened Arithmetic

  datatype Level = Error | Warn | Info | Debug | OtherLevel

  datatype Config = Config(info: real, debug: real, success: real, error: real, warn: real)

  function Bump(counter: nat): nat {
    (counter + 1) % TWO_64
  }

  /** uint64(1.0 / rate). */
  function Threshold(rate: real): int
    requires rate > 0.0
  {
    (1.0 / rate).Floor
  }

  lemma ThresholdPositive(rate: real)
    requires 0.0 < rate < 1.0
    ensures Threshold(rate) >= 1
  {
    assert 1.0 / rate >= 1.0;
  }

  /** shouldSampleWithCounter: the answer and the counter afterwards. */
  function SampleWithCounter(rate: real, counter: nat): (bool, nat) {
    if rate >= 1.0 then (true, counter)
    else if rate <= 0.0 then (false, counter)
    else
      ThresholdPositive(rate);
      (Bump(counter) % Threshold(rate) == 0, Bump(counter))
  }

  /** shouldSample, for the levels without a counter. */
  function SampleByClock(rate: real, now: nat): bool {
    if rate >= 1.0 then true
    else if rate <= 0.0 then false
    else now % 100 < (rate * 100.0).Floor
  }

  /** One counted level of ShouldLog: it bumps the counter itself before sampling bumps it again. */
  function CountedLog(rate: real, counter: nat): (bool, nat) {
    SampleWithCounter(rate, Bump(counter))
  }

  class Sampler {
    const config: Config
    var infoCounter: nat
    var debugCounter: nat
    var successCounter: nat

    constructor (config: Config)
      ensures this.config == config && infoCounter == debugCounter == successCounter == 0
    {
      this.config := config;
      infoCounter, debugCounter, successCounter := 0, 0, 0;
    }

    method ShouldSampleWithCounter(rate: real, counter: nat) returns (r: bool, counter': nat)
      ensures (r, counter') == SampleWithCounter(rate, counter)
    {
      counter' := counter;
      if rate >= 1.0 {
        return true, counter';
      }
      if rate <= 0.0 {
        return false, counter';
      }
      counter' := Bump(counter');
      ThresholdPositive(rate);
      var threshold := Threshold(rate);
      r := counter' % threshold == 0;
    }

    method ShouldLog(level: Level, isSuccess: bool, now: nat) returns (r: bool)
      modifies this
      ensures level.Error? ==> r == SampleByClock(config.error, now)
      ensures level.Warn? ==> r == SampleByClock(config.warn, now)
      ensures level.OtherLevel? ==> r
      ensures if level.Info? && isSuccess then (r, successCounter) == CountedLog(config.success, old(successCounter))
              else successCounter == old(successCounter)
      ensures if level.Info? && !isSuccess then (r, infoCounter) == CountedLog(config.info, old(infoCounter))
              else infoCounter == old(infoCounter)
      ensures if level.Debug? then (r, debugCounter) == CountedLog(config.debug, old(debugCounter))
              else debugCounter == old(debugCounter)
    {
      match level {
        case Error => r := SampleByClock(config.error, now);
        case Warn => r := SampleByClock(config.warn, now);
        case Info =>
          if isSuccess {
            successCounter := Bump(successCounter);
            r, successCounter := ShouldSampleWithCounter(config.success, successCounter);
          } else {
            infoCounter := Bump(infoCounter);
            r, infoCounter := ShouldSampleWithCounter(config.info, infoCounter);
          }
        case Debug =>
          debugCounter := Bump(debugCounter);
          r, debugCounter := ShouldSampleWithCounter(config.debug, debugCounter);
        case OtherLevel => r := true;
      }
    }
  }

  // ----- how often a level is really logged

  /** The counter before the k-th call (counting from 0) at one rate. */
  function CounterAfter(rate: real, k: nat): nat {
    if k == 0 then 0 else CountedLog(rate, CounterAfter(rate, k - 1)).1
  }

  lemma OneCall(rate: real, counter: nat)
    requires 0.0 < rate < 1.0 && counter + 2 < TWO_64
    ensures Threshold(rate) >= 1
    ensures CountedLog(rate, counter) == ((counter + 2) % Threshold(rate) == 0, counter + 2)
  {
    hide Threshold;
    ThresholdPositive(rate);
    assert Bump(counter) == counter + 1 && Bump(counter + 1) == counter + 2;
  }

  lemma {:induction false} TwoPerCall(rate: real, k: nat)
    requires 0.0 < rate < 1.0 && 2 * k < TWO_64
    ensures CounterAfter(rate, k) == 2 * k
  {
    hide Threshold, CountedLog;
    if k > 0 {
      TwoPerCall(rate, k - 1);
      OneCall(rate, 2 * (k - 1));
    }
  }

  lemma Multiple(x: int, t: int, q: int)
    requires t > 0 && x == q * t
    ensures x % t == 0
  {
    Quotient(x, t, q);
  }

  lemma OddDivides(k: int, t: int)
    requires t > 0 && t % 2 == 1
    ensures (2 * k) % t == 0 <==> k % t == 0
  {
    if k % t == 0 {
      var q := k / t;
      assert k == t * q;
      assert 2 * k == (2 * q) * t;
      Multiple(2 * k, t, 2 * q);
    }
    if (2 * k) % t == 0 {
      var q := (2 * k) / t;
      assert 2 * k == t * q;
      var h := t / 2;
      assert t == 2 * h + 1;
      assert t * q == 2 * (h * q) + q;
      assert q == 2 * (k - h * q);
      var p := k - h * q;
      assert t * q == 2 * (p * t);
      Multiple(k, t, p);
    }
  }

  lemma EvenDivides(k: int, h: int)
    requires h > 0
    ensures (2 * k) % (2 * h) == 0 <==> k % h == 0
  {
    if k % h == 0 {
      var q := k / h;
      assert k == h * q;
      assert 2 * k == q * (2 * h);
      Multiple(2 * k, 2 * h, q);
    }
    if (2 * k) % (2 * h) == 0 {
      var q := (2 * k) / (2 * h);
      assert 2 * k == (2 * h) * q;
      assert (2 * h) * q == 2 * (h * q);
      Multiple(k, h, q);
    }
  }

  /** Is the k-th call (from 1) of a level logged? */
  predicate Logged(rate: real, k: nat)
    requires k > 0
  {
    CountedLog(rate, CounterAfter(rate, k - 1)).0
  }

  /** The k-th call is logged exactly at the multiples of the threshold if the threshold is odd, and at the
      multiples of half of it if it is even: two bumps per call double the documented rate for even thresholds. */
  lemma LoggedCalls(rate: real, k: nat)
    requires 0.0 < rate < 1.0 && 0 < k && 2 * k < TWO_64
    ensures var t := Threshold(rate);
            t > 0 && (Logged(rate, k) <==> if t % 2 == 1 then k % t == 0 else k % (t / 2) == 0)
  {
    hide Threshold, CountedLog;
    TwoPerCall(rate, k - 1);
    OneCall(rate, 2 * (k - 1));
    var t := Threshold(rate);
    assert Logged(rate, k) <==> (2 * k) % t == 0;
    if t % 2 == 1 { OddDivides(k, t); } else { EvenDivides(k, t / 2); }
  }

  /** Every threshold-th call and no other is logged. */
  ghost predicate AsDocumented(rate: real)
    requires rate > 0.0
  {
    forall k: nat :: 0 < k && 2 * k < TWO_64 ==> (Logged(rate, k) <==> Threshold(rate) > 0 && k % Threshold(rate) == 0)
  }

  /** The documented one-in-threshold sampling holds for every call exactly when the threshold is odd. */
  lemma DocumentedRate(rate: real)
    requires 0.0 < rate < 1.0 && Threshold(rate) < TWO_64
    ensures AsDocumented(rate) <==> Threshold(rate) % 2 == 1
  {
    hide Threshold, Logged;
    ThresholdPositive(rate);
    var t := Threshold(rate);
    if t % 2 == 1 {
      forall k: nat | 0 < k && 2 * k < TWO_64 ensures Logged(rate, k) <==> k % t == 0 {
        LoggedCalls(rate, k);
      }
    } else {
      var h: nat := t / 2;
      LoggedCalls(rate, h);
      Multiple(h, h, 1);
      assert Logged(rate, h) && h % t == h != 0;
    }
  }

  /** The default rates: one INFO entry in five instead of ten, one success in fifty instead of a hundred. */
  lemma DefaultRates(k: nat)
    requires 0 < k && 2 * k < TWO_64
    ensures Logged(0.1, k) <==> k % 5 == 0
    ensures Logged(0.01, k) <==> k % 50 == 0
  {
    hide Logged;
    LoggedCalls(0.1, k);
    LoggedCalls(0.01, k);
    assert Threshold(0.1) == 10 && Threshold(0.01) == 100;
  }

  /** How many of the n clock readings from a base on let an entry of a level without a counter through. */
  function LetThrough(rate: real, base: nat, n: nat): nat {
    if n == 0 then 0 else LetThrough(rate, base, n - 1) + if SampleByClock(rate, base + (n - 1)) then 1 else 0
  }

  lemma {:induction false} ClockCounts(rate: real, base: nat, n: nat)
    requires 0.0 < rate < 1.0 && base % 100 == 0 && n <= 100
    ensures var share := (rate * 100.0).Floor; LetThrough(rate, base, n) == if n <= share then n else share
  {
    var share := (rate * 100.0).Floor;
    assert 0 <= share;
    if n > 0 {
      ClockCounts(rate, base, n - 1);
      assert (base + (n - 1)) % 100 == n - 1;
    }
  }

  /** Of every hundred nanoseconds a level without a counter gets the whole percents of its rate; a rate of 1 or
      more gets all, a rate of 0 or less none. */
  lemma ClockRate(rate: real, base: nat)
    requires base % 100 == 0
    ensures 0.0 < rate < 1.0 ==> LetThrough(rate, base, 100) == (rate * 100.0).Floor
    ensures rate >= 1.0 ==> SampleByClock(rate, base)
    ensures rate <= 0.0 ==> !SampleByClock(rate, base)
  {
    if 0.0 < rate < 1.0 {
      ClockCounts(rate, base, 100);
      assert (rate * 100.0).Floor <= 100;
    }
  }

  /** A counted level with a rate of 1 or more logs every call, with 0 or less none, and a call then bumps its
      counter only once. Counters wrap at 2^64. */
  lemma CountedExtremes(rate: real, counter: nat)
    ensures rate >= 1.0 ==> CountedLog(rate, counter).0
    ensures rate <= 0.0 ==> !CountedLog(rate, counter).0
    ensures !(0.0 < rate < 1.0) && counter < 0xffff_ffff_ffff_ffff ==> CountedLog(rate, counter).1 == counter + 1
    ensures counter < TWO_64 ==> CountedLog(rate, counter).1 < TWO_64
    ensures 0.0 < rate < 1.0 ==> CountedLog(rate, 0xffff_ffff_ffff_ffff).1 == 1
  {
  }
}
