/**
 * The counter-delta CPU estimator (`computeCpuPercent`) and the conversion
 * of event-loop delays from nanoseconds to milliseconds (`nsToMs`).
 * JavaScript numbers are modelled as exact reals; a non-finite number is
 * `None`.
 */
module CpuPercent {
  import opened Wrappers

  /** One reading of `cpu.stat`, taken at `timestampMs`. */
  datatype CpuSnapshot = CpuSnapshot(usageUsec: Option<int>, throttledUsec: Option<int>, timestampMs: int)

  /** `Math.round`: the nearest integer, halves rounded up. */
  function Round(x: real): (n: int)
    ensures x - 0.5 < n as real <= x + 0.5
  {
    (x + 0.5).Floor
  }

  function MinReal(a: real, b: real): real {
    if a <= b then a else b
  }

  function MaxReal(a: real, b: real): real {
    if a <= b then b else a
  }

  /** `x` has at most one decimal. */
  predicate IsTenths(x: real) {
    (x * 10.0).Floor as real == x * 10.0
  }

  /** `x` has at most two decimals. */
  predicate IsHundredths(x: real) {
    (x * 100.0).Floor as real == x * 100.0
  }

  /**
   * `computeCpuPercent`: the share of the allotted cores used between two
   * snapshots, in percent, rounded to one decimal and clamped to
   * `[0, 100 * cores]`. No previous snapshot or no usage reading gives
   * `None`; a usage or time that did not advance gives 0.
   */
  function ComputeCpuPercent(prev: Option<CpuSnapshot>, next: CpuSnapshot, effectiveCores: nat): (r: Option<real>)
    ensures r.None? <==> prev.None? || next.usageUsec.None? || prev.value.usageUsec.None?
    ensures r.Some? ==> 0.0 <= r.value <= 100.0 * effectiveCores as real
    ensures r.Some? ==> IsTenths(r.value)
    ensures r.Some? && (next.usageUsec.value <= prev.value.usageUsec.value || next.timestampMs <= prev.value.timestampMs)
      ==> r.value == 0.0
  {
    if prev.None? || next.usageUsec.None? || prev.value.usageUsec.None? then None
    else
      var deltaUsec := next.usageUsec.value - prev.value.usageUsec.value;
      var deltaMs := next.timestampMs - prev.value.timestampMs;
      if deltaUsec <= 0 || deltaMs <= 0 then Some(0.0)
      // With no core at all JavaScript divides by zero: the percentage is
      // Infinity and the clamp to 100 * 0 turns it into 0.
      else if effectiveCores == 0 then Some(0.0)
      else
        var tenths := Round(Percent(deltaUsec, deltaMs, effectiveCores) * 10.0);
        TenthsOf(tenths, effectiveCores);
        Some(MaxReal(0.0, MinReal(100.0 * effectiveCores as real, tenths as real / 10.0)))
  }

  /** A whole number of tenths, and a whole number of cores in percent, have one decimal at most. */
  lemma TenthsOf(tenths: int, cores: nat)
    ensures IsTenths(tenths as real / 10.0) && IsTenths(100.0 * cores as real) && IsTenths(0.0)
  {
    assert (tenths as real / 10.0) * 10.0 == tenths as real;
    assert (100.0 * cores as real) * 10.0 == (1000 * cores) as real;
  }

  /** The percentage as the source computes it: elapsed seconds times cores times 10^6 is the budget in microseconds. */
  function Percent(deltaUsec: int, deltaMs: int, cores: nat): real
    requires deltaMs > 0 && cores > 0
  {
    var denom := (deltaMs as real / 1000.0) * cores as real * 1000000.0;
    (deltaUsec as real / denom) * 100.0
  }

  /** The exact share, in percent, of `cores` cores used by `deltaUsec` microseconds over `deltaMs` milliseconds. */
  function ExactPercent(deltaUsec: int, deltaMs: int, cores: nat): real
    requires deltaMs > 0 && cores > 0
  {
    deltaUsec as real / (deltaMs as real * cores as real * 10.0)
  }

  /** The source's formula is the exact percentage. */
  lemma PercentIsExact(deltaUsec: int, deltaMs: int, cores: nat)
    requires deltaMs > 0 && cores > 0
    ensures Percent(deltaUsec, deltaMs, cores) == ExactPercent(deltaUsec, deltaMs, cores)
  {
    var x, a := deltaUsec as real, deltaMs as real * cores as real;
    assert a > 0.0;
    var denom := (deltaMs as real / 1000.0) * cores as real * 1000000.0;
    assert denom == a * 1000.0;
    var q := x / (a * 10.0);
    assert q * (a * 10.0) == x;
    assert (q / 100.0) * (a * 1000.0) == x;
    assert x / denom == q / 100.0;
  }

  /** Rounding to a tenth and clamping to `[0, 100 * cores]` moves a positive `e` by at most 0.05, or down to the ceiling; below the ceiling plus 0.05 it stays above `e - 0.05`. */
  lemma RoundAndClamp(e: real, cores: nat)
    requires e > 0.0
    ensures var hi := 100.0 * cores as real;
      var r := MaxReal(0.0, MinReal(hi, Round(e * 10.0) as real / 10.0));
      r <= e + 0.05
      && (e < hi + 0.05 ==> e - 0.05 < r)
      && (e >= hi ==> r == hi)
  {
    var tenths := Round(e * 10.0);
    assert e * 10.0 - 0.5 < tenths as real <= e * 10.0 + 0.5;
    var rounded := tenths as real / 10.0;
    assert e - 0.05 < rounded <= e + 0.05;
    if e >= 100.0 * cores as real {
      assert tenths as real > (1000 * cores) as real - 0.5;
      assert tenths >= 1000 * cores;
      assert rounded >= 100.0 * cores as real;
    }
  }

  /**
   * When both counters advanced, the estimate is the exact percentage
   * rounded to the nearest tenth, unless that exceeds `100 * cores`, where
   * it is clamped.
   */
  lemma CpuPercentIsRoundedRate(prev: CpuSnapshot, next: CpuSnapshot, cores: nat)
    requires prev.usageUsec.Some? && next.usageUsec.Some? && cores > 0
    requires next.usageUsec.value > prev.usageUsec.value && next.timestampMs > prev.timestampMs
    ensures var e := ExactPercent(next.usageUsec.value - prev.usageUsec.value, next.timestampMs - prev.timestampMs, cores);
      var r := ComputeCpuPercent(Some(prev), next, cores).value;
      r <= e + 0.05
      && (e < 100.0 * cores as real + 0.05 ==> e - 0.05 < r)
      && (e >= 100.0 * cores as real ==> r == 100.0 * cores as real)
  {
    var du, dm := next.usageUsec.value - prev.usageUsec.value, next.timestampMs - prev.timestampMs;
    PercentIsExact(du, dm, cores);
    var e := ExactPercent(du, dm, cores);
    assert e > 0.0;
    RoundAndClamp(e, cores);
  }

  /** Half a million microseconds over one second on two cores is 25.0 percent. */
  lemma ExampleTwoCores()
    ensures ComputeCpuPercent(Some(CpuSnapshot(Some(1000000), None, 0)), CpuSnapshot(Some(1500000), None, 1000), 2)
      == Some(25.0)
  {
    assert Percent(500000, 1000, 2) == 25.0;
    assert Round(25.0 * 10.0) == 250;
  }

  /** `nsToMs`: nanoseconds as milliseconds rounded to two decimals; a non-finite value reads 0. */
  function NsToMs(value: Option<real>): (r: real)
    ensures value.None? ==> r == 0.0
    ensures IsHundredths(r)
    ensures value.Some? ==> value.value / 1000000.0 - 0.005 < r <= value.value / 1000000.0 + 0.005
  {
    if value.None? then 0.0
    else
      var n := Round((value.value / 1000000.0) * 100.0);
      assert (n as real / 100.0) * 100.0 == n as real;
      n as real / 100.0
  }
}
