/**
 * The sampling orchestrator of `startMetricsSampler`: a once-only start
 * guard, then one tick per interval that reads the container and process
 * figures, estimates CPU use against the previous tick, appends one NDJSON
 * line and, every 15th successful append, rotates the log if it is too
 * large. A tick is one sequential step; everything it would read from the
 * host (clocks, counters, the control-group files) is an input.
 */
module Sampler {
  import opened Wrappers
  import opened Text
  import opened Cgroup
  import opened CpuPercent
  import opened FileStore

  /** The sampler's configuration. */
  datatype Options = Options(filePath: string, intervalMs: int, maxFileBytes: int, cgroupBasePath: string)

  /** The options a caller may pass to `startMetricsSampler`; `None` is a key left out. */
  datatype Overrides = Overrides(
    filePath: Option<string>, intervalMs: Option<int>, maxFileBytes: Option<int>, cgroupBasePath: Option<string>)

  /** The defaults when no environment variable overrides them. */
  const BuiltInDefaults := Options("/app/metrics/app-metrics.ndjson", 1000, 50 * 1024 * 1024, "/sys/fs/cgroup")

  function Pick<T>(given: Option<T>, fallback: T): T {
    if given.Some? then given.value else fallback
  }

  /** `{ ...defaults, ...options }`: every option given replaces its default, and only those. */
  function Merge(defaults: Options, overrides: Overrides): (o: Options)
    ensures overrides.filePath.Some? ==> o.filePath == overrides.filePath.value
    ensures overrides.filePath.None? ==> o.filePath == defaults.filePath
    ensures overrides.intervalMs.Some? ==> o.intervalMs == overrides.intervalMs.value
    ensures overrides.intervalMs.None? ==> o.intervalMs == defaults.intervalMs
    ensures overrides.maxFileBytes.Some? ==> o.maxFileBytes == overrides.maxFileBytes.value
    ensures overrides.maxFileBytes.None? ==> o.maxFileBytes == defaults.maxFileBytes
    ensures overrides.cgroupBasePath.Some? ==> o.cgroupBasePath == overrides.cgroupBasePath.value
    ensures overrides.cgroupBasePath.None? ==> o.cgroupBasePath == defaults.cgroupBasePath
  {
    Options(
      Pick(overrides.filePath, defaults.filePath),
      Pick(overrides.intervalMs, defaults.intervalMs),
      Pick(overrides.maxFileBytes, defaults.maxFileBytes),
      Pick(overrides.cgroupBasePath, defaults.cgroupBasePath))
  }

  /** The control-group files as read this tick; `None` where the read failed. */
  datatype CgroupFiles = CgroupFiles(
    memoryCurrent: Option<string>, memoryMax: Option<string>,
    pidsCurrent: Option<string>, pidsMax: Option<string>,
    cpuStat: Option<string>, cpuMax: Option<string>)

  /** The `container` block of a record. */
  datatype ContainerStats = ContainerStats(
    memCurrent: Option<int>, memMax: Option<int>,
    cpuPct: Option<real>, cpuUsageUsec: Option<int>, cpuThrottledUsec: Option<int>, cpuEffectiveCores: nat,
    pidsCurrent: Option<int>, pidsMax: Option<int>)

  /** `process.memoryUsage()` and the heap size limit, as the runtime reports them. */
  datatype MemoryReadings = MemoryReadings(
    rss: int, heapUsed: int, heapTotal: int, external: int, arrayBuffers: Option<int>, heapLimit: int)

  /** The event-loop delay histogram's 50th and 95th percentiles and maximum, in nanoseconds; `None` if not finite. */
  datatype LoopDelays = LoopDelays(p50Ns: Option<real>, p95Ns: Option<real>, maxNs: Option<real>)

  /** The `process` block of a record. */
  datatype ProcessStats = ProcessStats(
    rss: int, heapUsed: int, heapTotal: int, external: int, arrayBuffers: Option<int>, heapLimit: int,
    evloopMsP50: real, evloopMsP95: real, evloopMsMax: real)

  /** One line of the log, before serialisation. */
  datatype MetricRecord = MetricRecord(ts: string, container: ContainerStats, process: ProcessStats)

  /**
   * The container block of the record: each reading that could not be read
   * stays absent rather than becoming 0, and the CPU percentage is measured
   * against the previous snapshot.
   */
  function ContainerOf(files: CgroupFiles, prev: Option<CpuSnapshot>, nowMs: int, hostCores: nat): (c: ContainerStats)
    ensures files.memoryCurrent.None? ==> c.memCurrent.None?
    ensures files.memoryMax.None? ==> c.memMax.None?
    ensures files.pidsCurrent.None? ==> c.pidsCurrent.None?
    ensures files.pidsMax.None? ==> c.pidsMax.None?
    ensures files.cpuStat.None? ==> c.cpuUsageUsec.None? && c.cpuThrottledUsec.None? && c.cpuPct.None?
    ensures files.cpuMax.None? ==> c.cpuEffectiveCores == hostCores
    ensures c.cpuPct.Some? ==> prev.Some? && 0.0 <= c.cpuPct.value <= 100.0 * c.cpuEffectiveCores as real
  {
    var cpuMax := ParseCpuMax(FirstLineSafe(files.cpuMax), hostCores);
    var usage := CpuStatField(files.cpuStat, UsageKey);
    var throttled := CpuStatField(files.cpuStat, ThrottledKey);
    ContainerStats(
      ParseNumber(FirstLineSafe(files.memoryCurrent)),
      ParseLimit(FirstLineSafe(files.memoryMax)),
      ComputeCpuPercent(prev, CpuSnapshot(usage, throttled, nowMs), cpuMax.effectiveCores),
      usage, throttled, cpuMax.effectiveCores,
      ParseNumber(FirstLineSafe(files.pidsCurrent)),
      ParseLimit(FirstLineSafe(files.pidsMax)))
  }

  /** A value file as the kernel writes it: the decimal value and a newline. */
  function KernelValue(n: int): string {
    IntToString(n) + "\n"
  }

  /** Value files written by the kernel read back as the values they hold. */
  lemma ContainerOfKernelValues(files: CgroupFiles, prev: Option<CpuSnapshot>, nowMs: int, hostCores: nat,
                                memory: int, memoryLimit: int, pids: int, pidsLimit: int)
    requires files.memoryCurrent == Some(KernelValue(memory))
    requires files.memoryMax == Some(KernelValue(memoryLimit))
    requires files.pidsCurrent == Some(KernelValue(pids))
    requires files.pidsMax == Some(KernelValue(pidsLimit))
    ensures var c := ContainerOf(files, prev, nowMs, hostCores);
      c.memCurrent == Some(memory) && c.memMax == Some(memoryLimit)
      && c.pidsCurrent == Some(pids) && c.pidsMax == Some(pidsLimit)
  {
    KernelValueFirstLine(memory);
    KernelValueFirstLine(memoryLimit);
    KernelValueFirstLine(pids);
    KernelValueFirstLine(pidsLimit);
    ParseLimitOfDecimal(memoryLimit);
    ParseLimitOfDecimal(pidsLimit);
    ToNumberOfInt(memory);
    ToNumberOfInt(pids);
  }

  lemma KernelValueFirstLine(n: int)
    ensures FirstLineSafe(Some(KernelValue(n))) == Some(IntToString(n))
  {
    var x := IntToString(n);
    assert '\n' !in x by {
      assert IsWord(x);
    }
    FirstLineOfLines(x, "");
    assert KernelValue(n) == x + "\n" + "";
    TrimPadded("", x, "");
    assert "" + x + "" == x;
  }

  /** The process block of the record, with the delays in milliseconds. */
  function ProcessOf(memory: MemoryReadings, delays: LoopDelays): ProcessStats {
    ProcessStats(
      memory.rss, memory.heapUsed, memory.heapTotal, memory.external, memory.arrayBuffers, memory.heapLimit,
      NsToMs(delays.p50Ns), NsToMs(delays.p95Ns), NsToMs(delays.maxNs))
  }

  /** The rotation check runs once every this many successful appends. */
  const StatCheckEvery := 15

  /**
   * The process-wide sampler. `started` is the global flag; `prevCpu` and
   * `writeCount` are the state of the one sampling loop. The ghost fields
   * count the loops started, the lines appended and the size checks made.
   */
  class MetricsSampler {
    const defaults: Options
    const fs: FileSystem
    var started: bool
    var options: Options
    var prevCpu: Option<CpuSnapshot>
    var writeCount: nat
    ghost var loops: nat
    ghost var appends: nat
    ghost var sizeChecks: nat

    /** At most one loop, and a size check for every 15 appends, the counter holding the remainder. */
    ghost predicate Valid()
      reads this
    {
      loops == (if started then 1 else 0)
      && writeCount == appends % StatCheckEvery
      && sizeChecks == appends / StatCheckEvery
      && (!started ==> appends == 0 && prevCpu.None?)
    }

    constructor (defaults: Options, fs: FileSystem)
      ensures Valid() && !started && loops == 0
      ensures this.defaults == defaults && this.fs == fs
    {
      this.defaults := defaults;
      this.fs := fs;
      started := false;
      options := defaults;
      prevCpu := None;
      writeCount := 0;
      loops, appends, sizeChecks := 0, 0, 0;
    }

    /**
     * `startMetricsSampler(overrides)`: the first call raises the flag and
     * starts the loop with the merged options; every later call changes
     * nothing.
     */
    method Start(overrides: Overrides)
      requires Valid()
      modifies this
      ensures Valid() && started && loops == 1
      ensures old(started) ==> unchanged(this)
      ensures !old(started) ==>
        options == Merge(defaults, overrides) && prevCpu.None? && writeCount == 0 && appends == 0 && sizeChecks == 0
    {
      if started {
        return;
      }
      started := true;
      options := Merge(defaults, overrides);
      prevCpu := None;
      writeCount := 0;
      loops := loops + 1;
    }

    /**
     * One tick of the interval timer. The snapshot always replaces
     * `prevCpu`; a failed append loses this tick's line and leaves the
     * counter alone; the append that brings the counter to 15 resets it and
     * runs the rotation check.
     */
    method Tick(ts: string, memory: MemoryReadings, delays: LoopDelays, cgroup: CgroupFiles,
                nowMs: int, hostCores: nat, encode: MetricRecord -> seq<byte>, appendOk: bool, rotateIo: RotateIo)
      returns (record: MetricRecord)
      requires Valid() && started
      modifies this, fs
      ensures Valid() && started && loops == old(loops) && options == old(options)
      ensures writeCount < StatCheckEvery
      ensures record == MetricRecord(ts, ContainerOf(cgroup, old(prevCpu), nowMs, hostCores), ProcessOf(memory, delays))
      ensures prevCpu == Some(CpuSnapshot(record.container.cpuUsageUsec, record.container.cpuThrottledUsec, nowMs))
      ensures appends == old(appends) + (if appendOk then 1 else 0)
      ensures sizeChecks == old(sizeChecks) + (if appendOk && old(writeCount) == StatCheckEvery - 1 then 1 else 0)
      ensures var written := Appended(old(fs.files), options.filePath, encode(record) + [LineFeed]);
        fs.files == if !appendOk then old(fs.files)
                    else if old(writeCount) == StatCheckEvery - 1
                    then AfterRotation(written, options.filePath, options.maxFileBytes, rotateIo)
                    else written
    {
      var container := ReadContainer(cgroup, prevCpu, nowMs, hostCores);
      prevCpu := Some(CpuSnapshot(container.cpuUsageUsec, container.cpuThrottledUsec, nowMs));
      record := MetricRecord(ts, container, ProcessOf(memory, delays));
      Persist(encode(record) + [LineFeed], appendOk, rotateIo);
    }

    /**
     * Appends one line to the log; on success counts it and, at the 15th
     * append since the last check, resets the counter and runs the rotation
     * check. A failed append changes nothing.
     */
    method Persist(line: seq<byte>, appendOk: bool, rotateIo: RotateIo)
      requires Valid() && started
      modifies this, fs
      ensures Valid() && started && loops == old(loops) && options == old(options) && prevCpu == old(prevCpu)
      ensures appends == old(appends) + (if appendOk then 1 else 0)
      ensures sizeChecks == old(sizeChecks) + (if appendOk && old(writeCount) == StatCheckEvery - 1 then 1 else 0)
      ensures var written := Appended(old(fs.files), options.filePath, line);
        fs.files == if !appendOk then old(fs.files)
                    else if old(writeCount) == StatCheckEvery - 1
                    then AfterRotation(written, options.filePath, options.maxFileBytes, rotateIo)
                    else written
    {
      var appended := fs.AppendFile(options.filePath, line, appendOk);
      if !appended {
        // The failure ends the tick at its boundary; nothing else happens.
        return;
      }
      appends := appends + 1;
      writeCount := writeCount + 1;
      if writeCount >= StatCheckEvery {
        writeCount := 0;
        sizeChecks := sizeChecks + 1;
        RotateIfTooLarge(fs, options.filePath, options.maxFileBytes, rotateIo);
      }
    }
  }

  /** Reads the container block the way a tick does, step by step. */
  method ReadContainer(cgroup: CgroupFiles, prev: Option<CpuSnapshot>, nowMs: int, hostCores: nat)
    returns (container: ContainerStats)
    ensures container == ContainerOf(cgroup, prev, nowMs, hostCores)
  {
    var memCurrent := ParseNumber(FirstLineSafe(cgroup.memoryCurrent));
    var memMax := ParseLimit(FirstLineSafe(cgroup.memoryMax));
    var pidsCurrent := ParseNumber(FirstLineSafe(cgroup.pidsCurrent));
    var pidsMax := ParseLimit(FirstLineSafe(cgroup.pidsMax));
    var usage, throttled := ParseCpuStat(cgroup.cpuStat);
    var cpuMax := ParseCpuMax(FirstLineSafe(cgroup.cpuMax), hostCores);
    var cpuPct := ComputeCpuPercent(prev, CpuSnapshot(usage, throttled, nowMs), cpuMax.effectiveCores);
    container := ContainerStats(
      memCurrent, memMax, cpuPct, usage, throttled, cpuMax.effectiveCores, pidsCurrent, pidsMax);
  }

  /** No option passed: `startMetricsSampler()`. */
  const NoOverrides := Overrides(None, None, None, None)

  /** A sampler started without options runs with the built-in defaults. */
  method StartWithDefaults(fs: FileSystem) returns (sampler: MetricsSampler)
    ensures fresh(sampler) && sampler.fs == fs
    ensures sampler.Valid() && sampler.started && sampler.loops == 1
    ensures sampler.options == BuiltInDefaults
    ensures sampler.options.intervalMs == 1000 && sampler.options.maxFileBytes == 52428800
  {
    sampler := new MetricsSampler(BuiltInDefaults, fs);
    sampler.Start(NoOverrides);
  }

  /** Starting twice in one process leaves exactly one loop, configured by the first call. */
  method StartTwice(sampler: MetricsSampler, first: Overrides, second: Overrides)
    requires sampler.Valid() && !sampler.started
    modifies sampler
    ensures sampler.Valid() && sampler.loops == 1
    ensures sampler.options == Merge(sampler.defaults, first)
  {
    sampler.Start(first);
    sampler.Start(second);
  }
}
