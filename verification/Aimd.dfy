/**
 The AIMD concurrency window: one controller decision, its closed forms over whole histories, and the
 agreement of the Redis script with the local controller.
 */
module Aimd {
  import opened Tables
  import opened Percentile

  const FRACTION := 0.95

  datatype Settings = Settings(minimum: int, maximum: int, target: real, step: int, ratio: real)

  /** What one window observed. */
  datatype Window = Window(latencies: seq<real>, failures: nat)

  ghost predicate SaneSettings(settings: Settings) {
    1 <= settings.minimum <= settings.maximum && settings.step >= 0 && 0.0 <= settings.ratio <= 1.0
  }

  predicate InRange(settings: Settings, limit: int) {
    settings.minimum <= limit <= settings.maximum
  }

  function FailureRate(window: Window): real {
    if window.latencies == [] then 0.0 else window.failures as real / |window.latencies| as real
  }

  predicate Overloaded(settings: Settings, p95: real, failureRate: real) {
    failureRate > 0.0 || p95 > settings.target
  }

  /** What the controller concludes from a window. */
  datatype Verdict = Silent | Healthy | Bad

  function VerdictOf(settings: Settings, window: Window): Verdict {
    if window.latencies == [] then Silent
    else if Overloaded(settings, PercentileOf(window.latencies, FRACTION), FailureRate(window)) then Bad
    else Healthy
  }

  /** The product, under a name that keeps it out of linear reasoning. */
  function Times(x: real, ratio: real): real { x * ratio }

  function Decreased(settings: Settings, limit: int): int {
    Max(settings.minimum, Times(limit as real, settings.ratio).Floor)
  }

  function Increased(settings: Settings, limit: int): int {
    Min(settings.maximum, limit + settings.step)
  }

  /** The next limit; an empty window changes nothing. */
  function NextLimit(settings: Settings, limit: int, verdict: Verdict): int {
    match verdict
    case Silent => limit
    case Healthy => Increased(settings, limit)
    case Bad => Decreased(settings, limit)
  }

  /** The controller backs off exactly when a call failed or too few latencies met the target. */
  lemma BackOffCondition(settings: Settings, window: Window)
    requires window.latencies != []
    ensures VerdictOf(settings, window).Bad? <==>
            window.failures > 0
            || 20 * CountAtMost(window.latencies, settings.target) < 19 * |window.latencies|
  {
    var n := |window.latencies|;
    RankInRange(n, FRACTION);
    PercentileIsNearestRank(window.latencies, FRACTION, settings.target);
    RateIsPositive(window.failures, n);
    NineteenOfTwenty(CountAtMost(window.latencies, settings.target), n);
  }

  lemma NineteenOfTwenty(count: nat, n: nat)
    ensures count < Ceil(n as real * FRACTION) <==> 20 * count < 19 * n
  {
    var x := n as real * FRACTION;
    assert 20.0 * x == 19.0 * n as real;
    assert Ceil(x) as real >= x && Ceil(x) as real < x + 1.0;
  }

  lemma RateIsPositive(failures: nat, n: nat)
    requires n > 0
    ensures failures as real / n as real > 0.0 <==> failures > 0
  {
    if failures == 0 {
      assert failures as real == 0.0;
    } else {
      assert failures as real >= 1.0;
    }
  }

  // ---------------------------------------------------------------- the controller object

  datatype Decision = Decision(previous: int, next: int, samples: nat, p95: real, failureRate: real)

  class AimdConcurrencyController {
    const settings: Settings
    var limit: int
    var latencies: seq<real>
    var failures: nat

    constructor (limit: int, settings: Settings)
      ensures this.limit == limit && this.settings == settings && Observed() == Window([], 0)
    {
      this.limit, this.settings, latencies, failures := limit, settings, [], 0;
    }

    function Observed(): Window
      reads this
    {
      Window(latencies, failures)
    }

    method Observe(latency: real, succeeded: bool)
      modifies this`latencies, this`failures
      ensures latencies == old(latencies) + [latency]
      ensures failures == old(failures) + (if succeeded then 0 else 1)
    {
      latencies := latencies + [latency];
      if !succeeded {
        failures := failures + 1;
      }
    }

    method Adjust() returns (decision: Decision)
      modifies this
      ensures limit == NextLimit(settings, old(limit), VerdictOf(settings, old(Observed()))) && Observed() == Window([], 0)
      ensures limit ==
                if old(latencies) == [] then old(limit)
                else if old(failures) > 0 || 20 * CountAtMost(old(latencies), settings.target) < 19 * |old(latencies)|
                then Max(settings.minimum, (old(limit) as real * settings.ratio).Floor)
                else Min(settings.maximum, old(limit) + settings.step)
      ensures decision == Decision(old(limit), limit, |old(latencies)|,
                PercentileOf(old(latencies), 0.95),
                if old(latencies) == [] then 0.0 else old(failures) as real / |old(latencies)| as real)
    {
      if latencies != [] {
        BackOffCondition(settings, Observed());
      }
      var samples := |latencies|;
      var p95 := PercentileOf(latencies, FRACTION);
      var failureRate := if samples > 0 then failures as real / samples as real else 0.0;
      var previous := limit;
      if samples > 0 && (failureRate > 0.0 || p95 > settings.target) {
        limit := Max(settings.minimum, (limit as real * settings.ratio).Floor);
      } else if samples > 0 {
        limit := Min(settings.maximum, limit + settings.step);
      }
      latencies, failures := [], 0;
      decision := Decision(previous, limit, samples, p95, failureRate);
    }
  }

  // ---------------------------------------------------------------- histories

  /** The limit after a history of windows, oldest first. */
  function After(settings: Settings, limit: int, history: seq<Verdict>): int
    decreases |history|
  {
    if history == [] then limit
    else NextLimit(settings, After(settings, limit, history[..|history| - 1]), history[|history| - 1])
  }

  lemma ProductSign(x: real, y: real)
    requires x >= 0.0 && y >= 0.0
    ensures x * y >= 0.0
    ensures x > 0.0 && y > 0.0 ==> x * y > 0.0
  {
  }

  lemma Grows(small: real, large: real, ratio: real)
    requires small <= large && ratio >= 0.0
    ensures Times(small, ratio) <= Times(large, ratio)
  {
    ProductSign(large - small, ratio);
    assert (large - small) * ratio == large * ratio - small * ratio;
  }

  lemma Shrink(x: real, ratio: real)
    requires x >= 0.0 && 0.0 <= ratio <= 1.0
    ensures 0.0 <= Times(x, ratio) <= x
    ensures x > 0.0 && ratio < 1.0 ==> Times(x, ratio) < x
  {
    ProductSign(x, ratio);
    ProductSign(x, 1.0 - ratio);
    assert x * (1.0 - ratio) == x - x * ratio;
  }

  lemma FloorBelow(x: real, n: int)
    ensures x <= n as real ==> x.Floor <= n
    ensures x < n as real ==> x.Floor < n
    ensures x.Floor as real <= x
  {
    if x.Floor > n {
      assert x.Floor as real >= n as real + 1.0;
    }
    if x.Floor >= n {
      assert x.Floor as real >= n as real;
    }
  }

  lemma ScaledFloor(limit: int, ratio: real)
    requires limit >= 0 && 0.0 <= ratio <= 1.0
    ensures Times(limit as real, ratio).Floor <= limit
    ensures Times(limit as real, ratio).Floor as real <= Times(limit as real, ratio)
    ensures limit > 0 && ratio < 1.0 ==> Times(limit as real, ratio).Floor < limit
  {
    Shrink(limit as real, ratio);
    FloorBelow(Times(limit as real, ratio), limit);
  }

  lemma DecreaseInRange(settings: Settings, limit: int)
    requires SaneSettings(settings) && InRange(settings, limit)
    ensures InRange(settings, Decreased(settings, limit)) && Decreased(settings, limit) <= limit
    ensures settings.ratio < 1.0 && limit > settings.minimum ==> Decreased(settings, limit) < limit
  {
    ScaledFloor(limit, settings.ratio);
  }

  lemma NextInRange(settings: Settings, limit: int, verdict: Verdict)
    requires SaneSettings(settings) && InRange(settings, limit)
    ensures InRange(settings, NextLimit(settings, limit, verdict))
  {
    DecreaseInRange(settings, limit);
  }

  /** Over every history the limit stays within its bounds. */
  lemma {:induction false} LimitStaysInRange(settings: Settings, limit: int, history: seq<Verdict>)
    requires SaneSettings(settings) && InRange(settings, limit)
    ensures InRange(settings, After(settings, limit, history))
    decreases |history|
  {
    if history != [] {
      var before := history[..|history| - 1];
      LimitStaysInRange(settings, limit, before);
      NextInRange(settings, After(settings, limit, before), history[|history| - 1]);
    }
  }

  ghost predicate All(history: seq<Verdict>, verdict: Verdict) {
    forall i :: 0 <= i < |history| ==> history[i] == verdict
  }

  /** k healthy windows add exactly k steps, up to the maximum. */
  lemma {:induction false} HealthyWindowsAdd(settings: Settings, limit: int, history: seq<Verdict>)
    requires SaneSettings(settings) && InRange(settings, limit) && All(history, Healthy)
    ensures After(settings, limit, history) == Min(settings.maximum, limit + |history| * settings.step)
    decreases |history|
  {
    if history != [] {
      var n := |history| - 1;
      HealthyWindowsAdd(settings, limit, history[..n]);
      OneStepMore(n, settings.step);
    }
  }

  lemma OneStepMore(n: nat, step: int)
    requires step >= 0
    ensures (n + 1) * step == n * step + step && n * step >= 0
  {
  }

  /** x * ratio^k */
  function Geometric(x: real, ratio: real, k: nat): real {
    if k == 0 then x else Times(Geometric(x, ratio, k - 1), ratio)
  }

  function MaxReal(a: real, b: real): real { if a >= b then a else b }

  lemma ScaleMax(minimum: real, current: real, bound: real, ratio: real)
    requires 0.0 <= ratio <= 1.0 && 0.0 <= minimum && 0.0 <= current <= MaxReal(minimum, bound)
    ensures Times(current, ratio) <= MaxReal(minimum, Times(bound, ratio))
  {
    if current <= bound {
      Grows(current, bound, ratio);
    } else {
      Shrink(current, ratio);
    }
  }

  lemma BadStep(settings: Settings, before: int, bound: real)
    requires SaneSettings(settings) && before >= 0 && before as real <= MaxReal(settings.minimum as real, bound)
    ensures Decreased(settings, before) as real <= MaxReal(settings.minimum as real, Times(bound, settings.ratio))
  {
    ScaleMax(settings.minimum as real, before as real, bound, settings.ratio);
    ScaledFloor(before, settings.ratio);
  }

  /** k bad windows shrink the limit geometrically, despite the nested floors. */
  lemma {:induction false} BadWindowsShrink(settings: Settings, limit: int, history: seq<Verdict>)
    requires SaneSettings(settings) && InRange(settings, limit) && All(history, Bad)
    ensures After(settings, limit, history) as real
         <= MaxReal(settings.minimum as real, Geometric(limit as real, settings.ratio, |history|))
    decreases |history|
  {
    if history != [] {
      var before := history[..|history| - 1];
      BadWindowsShrink(settings, limit, before);
      LimitStaysInRange(settings, limit, before);
      BadStep(settings, After(settings, limit, before), Geometric(limit as real, settings.ratio, |before|));
    }
  }

  /** One bad window gives exactly the product, cut to an integer, or the minimum if that is above it. */
  lemma BadWindowIsFloor(settings: Settings, limit: int)
    requires SaneSettings(settings) && InRange(settings, limit)
    ensures var next, product := After(settings, limit, [Bad]), limit as real * settings.ratio;
      && settings.minimum <= next
      && (next > settings.minimum ==> next as real <= product < next as real + 1.0)
      && (next == settings.minimum ==> product < settings.minimum as real + 1.0)
  {
    assert [Bad][..0] == [];
    assert After(settings, limit, []) == limit;
    assert Times(limit as real, settings.ratio) == limit as real * settings.ratio;
  }

  /** With a ratio below one the minimum is reached after at most limit - minimum bad windows. */
  lemma {:induction false} BadWindowsReachMinimum(settings: Settings, limit: int, history: seq<Verdict>)
    requires SaneSettings(settings) && settings.ratio < 1.0 && InRange(settings, limit) && All(history, Bad)
    ensures After(settings, limit, history) <= Max(settings.minimum, limit - |history|)
    ensures |history| >= limit - settings.minimum ==> After(settings, limit, history) == settings.minimum
    decreases |history|
  {
    LimitStaysInRange(settings, limit, history);
    if history != [] {
      var n := |history| - 1;
      BadWindowsReachMinimum(settings, limit, history[..n]);
      LimitStaysInRange(settings, limit, history[..n]);
      DecreaseInRange(settings, After(settings, limit, history[..n]));
    }
  }

  // ---------------------------------------------------------------- the Redis script

  /** The window script: reads the stored window or the default and returns (current, next). */
  function LuaAdjust(settings: Settings, stored: Option<int>, fallback: int, p95: real, failureRate: real): (int, int) {
    var current := if stored.Some? then stored.value else fallback;
    (current,
     if Overloaded(settings, p95, failureRate) then Max(settings.minimum, Times(current as real, settings.ratio).Floor)
     else Min(settings.maximum, current + settings.step))
  }

  /**
   From the stored window, or the caller's limit when none is stored, the script and the controller agree
   exactly on the non-empty windows: on an empty one the controller stays put while the script still
   increases, unless the limit is at the maximum already.
   */
  lemma LuaAgrees(settings: Settings, stored: Option<int>, limit: int, window: Window)
    requires settings.target >= 0.0 && (window.latencies == [] ==> window.failures == 0)
    ensures var (current, next) :=
              LuaAdjust(settings, stored, limit, PercentileOf(window.latencies, 0.95), FailureRate(window));
      && current == (if stored.Some? then stored.value else limit)
      && (next == NextLimit(settings, current, VerdictOf(settings, window)) <==>
            window.latencies != [] || Min(settings.maximum, current + settings.step) == current)
  {
  }

  lemma LuaInRange(settings: Settings, stored: Option<int>, fallback: int, p95: real, failureRate: real)
    requires SaneSettings(settings) && InRange(settings, fallback) && (stored.Some? ==> InRange(settings, stored.value))
    ensures InRange(settings, LuaAdjust(settings, stored, fallback, p95, failureRate).1)
  {
    DecreaseInRange(settings, if stored.Some? then stored.value else fallback);
  }
}
