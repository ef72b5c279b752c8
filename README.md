# Metrics sampler model

A Dafny model of the metrics sampler in `src/utils/metrics.ts`. The sampler
is a process-wide, start-once background loop. Once per interval it reads:

- the Linux control-group v2 files (`memory.current`, `memory.max`,
  `pids.current`, `pids.max`, `cpu.stat`, `cpu.max`);
- the process's memory counters and event-loop delay percentiles.

From these it estimates the container's CPU use from the change in the
`usage_usec` counter since the previous tick. It appends one JSON line per
tick to a log file. After every 15th successful append it checks the log's
size, and a log over the limit is rotated to a single `.1` backup.

The model has six modules:

- `Wrappers`: `Option`, which stands for JavaScript's `null`.
- `Text`: the JavaScript string built-ins the parsers rely on. These are
  `trim` with its whitespace set, `split(/\s+/)`, `split(/\r?\n/)` and
  `Number()` on decimal integers.
- `Cgroup`: `readFirstLineSafe`'s text handling and the five parsers.
- `CpuPercent`: `computeCpuPercent` and `nsToMs`, over exact reals.
- `FileStore`: an abstract file system and `rotateIfTooLarge`. The file
  system is a map from path to bytes, and each call's success is an input.
- `Sampler`: option merging, assembling a record, and the `MetricsSampler`
  class. The class holds the start flag, `prevCpu` and the rotation counter;
  `Start` and `Tick` update them in place.

A tick takes as inputs everything it would otherwise get from the host:

- the wall-clock timestamp and `Date.now()`;
- the memory counters and the delay histogram;
- the contents of each control-group file, or `None` when the read failed;
- the host's core count;
- the JSON serialiser;
- whether each file-system call succeeds.

## Model

| member | source | states |
|---|---|---|
| Text.TrimSpec | src/utils/metrics.ts:151 | `trim` returns a trimmed slice of its input with only whitespace cut on either side |
| Text.TrimPadded | src/utils/metrics.ts:151 | trimming whitespace-padded non-blank trimmed text returns exactly that text |
| Text.WsSplitWords | src/utils/metrics.ts:202 | `trim().split(/\s+/)` yields `[""]` exactly when the text is blank, and otherwise only non-empty words without whitespace |
| Text.TokensAfterSpaces | src/utils/metrics.ts:202 | leading whitespace does not change the words |
| Text.JoinedEnds | src/utils/metrics.ts:202 | words joined by anything form a non-empty trimmed text |
| Text.TokensOfJoined | src/utils/metrics.ts:202 | words joined by non-empty runs of whitespace split back into those words, in order |
| Text.WsSplitOfJoined | src/utils/metrics.ts:202 | `trim().split(/\s+/)` of words separated by any whitespace runs, with any whitespace around them, gives exactly those words in order |
| Text.WsSplitTwoWords | src/utils/metrics.ts:219 | two words joined by a space split back into exactly those two words |
| Text.WsSplitOneWord | src/utils/metrics.ts:219 | a single word splits into itself alone |
| Text.SplitLinesSpec | src/utils/metrics.ts:199 | no line produced by `split(/\r?\n/)` contains a line feed |
| Text.SplitLinesFirst | src/utils/metrics.ts:199 | the text before the first line feed, less a trailing carriage return, is the first line and the rest is split alike |
| Text.SplitLinesSingle | src/utils/metrics.ts:199 | text without a line feed is a single line |
| Text.NatToStringValue | src/utils/metrics.ts:169 | the decimal digits of a natural number have that number as their value |
| Text.NumberOfIntText | src/utils/metrics.ts:169 | `Number()` of an integer's trimmed decimal text, signed when negative, is that integer |
| Text.ToNumberOfDecimal | src/utils/metrics.ts:169 | `Number()` of any integer's decimal text, with whitespace around it, is that integer |
| Text.ToNumberRejectsStray | src/utils/metrics.ts:169-170 | a character other than a digit or a leading sign makes `Number()` NaN |
| Text.ToNumberRejectsLoneSign | src/utils/metrics.ts:169-170 | a sign without digits is NaN |
| Text.ToNumberOfInt | src/utils/metrics.ts:169 | `Number()` of any integer's decimal text is that integer |
| Cgroup.FirstLineSafe | src/utils/metrics.ts:147-155 | a failed read stays `null`; otherwise the result is trimmed, holds no line feed, and equals the trimmed file when the file is one line |
| Cgroup.FirstLineOfLines | src/utils/metrics.ts:150-151 | only the text before the first line feed is kept, trimmed |
| Cgroup.ParseNumber | src/utils/metrics.ts:165-171 | `null` stays `null`; otherwise the result is `Number(text)`, or `null` when that is not finite |
| Cgroup.ParseNumberOfDecimal | src/utils/metrics.ts:165-171 | a whitespace-padded decimal integer parses to itself |
| Cgroup.ParseNumberRejects | src/utils/metrics.ts:165-171 | text that is not blank and not an optionally signed run of digits gives `null` |
| Cgroup.ParseNumberOfMax | src/utils/metrics.ts:165-171 | `parseNumber("max")` is `null` |
| Cgroup.EmptyValueReadsZero | src/utils/metrics.ts:147-171 | a readable value file that is empty or only a line feed reads as 0, since `Number("")` is 0 |
| Cgroup.ParseLimit | src/utils/metrics.ts:173-191 | `parseMemoryMax` and `parsePidsMax`: `null`, empty and `max` mean no limit; anything else is `parseNumber` |
| Cgroup.ParseLimitOfDecimal | src/utils/metrics.ts:173-191 | a decimal limit parses to itself |
| Cgroup.ExampleMemoryMax | src/utils/metrics.ts:177-180 | `max` is no limit and `104857600` is 104857600 |
| Cgroup.StatFieldIsLastEntry | src/utils/metrics.ts:200-211 | when keys repeat, the value of the last two-word line with the key wins |
| Cgroup.StatFieldWithoutEntry | src/utils/metrics.ts:197-211 | a key with no two-word line stays `null` |
| Cgroup.ParseCpuStat | src/utils/metrics.ts:193-213 | a missing or empty file gives two `null`s; otherwise the loop's results equal the last-entry-wins field of each key |
| Cgroup.WordsOfTwoEntries | src/utils/metrics.ts:199-202 | a usage line and a throttling line split into the two key-value pairs |
| Cgroup.CpuStatOfTwoLines | src/utils/metrics.ts:193-213 | `usage_usec U` followed by `throttled_usec T` parses to exactly U and T |
| Cgroup.FloorCores | src/utils/metrics.ts:228 | `max(1, floor(q / p))` periods fit within `max(q, p)`, and one more does not |
| Cgroup.ParseCpuMax | src/utils/metrics.ts:215-230 | a missing or empty file, quota `max`, an unparseable number or a period that is not positive fall back to the host's cores; otherwise the period is positive and the cores are at least 1 and the whole number of periods in the quota |
| Cgroup.ParseCpuMaxOfQuota | src/utils/metrics.ts:219-229 | `quota period` gives `max(1, floor(quota / period))` cores when the period is positive, and the host's cores otherwise |
| Cgroup.ParseCpuMaxParts | src/utils/metrics.ts:215-230 | for any non-empty line, quota and period are the parsed first and second words exactly when the first word is not `max`, both parse and the period is positive; otherwise the host's cores |
| Cgroup.ParseCpuMaxBadQuota | src/utils/metrics.ts:223-226 | a first word that is neither `max` nor a number gives the host's cores, with or without a period |
| Cgroup.ParseCpuMaxBadPeriod | src/utils/metrics.ts:224-226 | a period that is not a number gives the host's cores |
| Cgroup.ParseCpuMaxOfQuotaOnly | src/utils/metrics.ts:223-229 | a quota without a period is measured against 100000 |
| Cgroup.ParseCpuMaxUnlimited | src/utils/metrics.ts:219-222 | `max`, with or without a period, gives the host's cores |
| CpuPercent.Round | src/utils/metrics.ts:243 | `Math.round` is within half a unit of its argument |
| CpuPercent.ComputeCpuPercent | src/utils/metrics.ts:232-244 | `null` exactly when either snapshot lacks a usage or there is no previous one; otherwise the result lies in `[0, 100 * cores]`, has one decimal, and is 0 when usage or time did not advance |
| CpuPercent.TenthsOf | src/utils/metrics.ts:243 | a whole number of tenths, and `100 * cores`, have at most one decimal |
| CpuPercent.PercentIsExact | src/utils/metrics.ts:241-242 | the source's formula is the used share of `cores * elapsed` in percent |
| CpuPercent.RoundAndClamp | src/utils/metrics.ts:243 | for a positive exact share `e`, the rounded and clamped value is at most `e + 0.05`, above `e - 0.05` whenever `e` is below the cap plus 0.05, and the cap `100 * cores` once `e` reaches it |
| CpuPercent.CpuPercentIsRoundedRate | src/utils/metrics.ts:232-244 | when both counters advanced, the estimate is at most the exact share plus 0.05, above the share minus 0.05 whenever the share is below the cap plus 0.05, and the cap once the share reaches it |
| CpuPercent.ExampleTwoCores | src/utils/metrics.ts:236-243 | 0.5 s of CPU over 1 s on two cores is 25.0 |
| CpuPercent.NsToMs | src/utils/metrics.ts:140-145 | a non-finite delay reads 0; otherwise the result is the delay in milliseconds to within 0.005, with two decimals |
| FileStore.Backup | src/utils/metrics.ts:250 | the backup path differs from the live path |
| FileStore.FileSystem.Stat | src/utils/metrics.ts:248 | the size of an existing file, or a failure |
| FileStore.FileSystem.Unlink | src/utils/metrics.ts:253 | removes an existing file, or fails and changes nothing |
| FileStore.FileSystem.Rename | src/utils/metrics.ts:256 | moves an existing file over the target, or fails and changes nothing |
| FileStore.FileSystem.Truncate | src/utils/metrics.ts:259 | empties an existing file, or fails and changes nothing |
| FileStore.FileSystem.AppendFile | src/utils/metrics.ts:113 | appends to the file, creating it if missing, or fails and changes nothing |
| FileStore.Appended | src/utils/metrics.ts:113 | only the appended path changes, and it ends with the data after its previous contents |
| FileStore.AfterRotation | src/utils/metrics.ts:246-266 | nothing changes unless the stat succeeds and the file is over the limit. Then a successful rename makes the old live contents the backup, replacing any earlier one. A failed rename removes the old backup if the unlink succeeded, and otherwise leaves the backup as it was; it empties the live file if truncation succeeded. No other file changes, and when the rename or truncation succeeds the live file ends within the limit |
| FileStore.RotateIfTooLarge | src/utils/metrics.ts:246-266 | the stat, unlink, rename and truncate calls in sequence leave exactly `AfterRotation` |
| Sampler.Merge | src/utils/metrics.ts:34 | every option given replaces its default, and every option left out keeps it |
| Sampler.ContainerOf | src/utils/metrics.ts:65-99 | a file that could not be read gives an absent field, never 0; without `cpu.max` the host's cores are used; a CPU percentage needs a previous snapshot and lies in `[0, 100 * cores]` |
| Sampler.KernelValueFirstLine | src/utils/metrics.ts:147-155 | a value file written as digits and a newline reads as the digits |
| Sampler.ContainerOfKernelValues | src/utils/metrics.ts:68-80 | memory and pids files written by the kernel give exactly their values |
| Sampler.ReadContainer | src/utils/metrics.ts:66-85 | reading and parsing the six files one by one gives `ContainerOf` |
| Sampler.MetricsSampler.constructor | src/utils/metrics.ts:36-41 | before any start no loop runs and the flag is down |
| Sampler.MetricsSampler.Start | src/utils/metrics.ts:33-50 | the first call raises the flag and starts one loop with the merged options, no snapshot and a zero counter; a later call changes nothing |
| Sampler.MetricsSampler.Tick | src/utils/metrics.ts:52-124 | the record is built from this tick's readings and the previous snapshot, and this tick's snapshot replaces it whether or not the write succeeds. The line is the serialised record plus a newline. A failed append changes no file and no counter. The append that completes 15 runs the rotation check and resets the counter, which always stays below 15 |
| Sampler.MetricsSampler.Persist | src/utils/metrics.ts:113-120 | the append, the counter increment and the rotation check every 15th append, keeping one size check per 15 appends |
| Sampler.StartWithDefaults | src/utils/metrics.ts:20-34 | starting without options gives one loop running with the built-in defaults: the log path, 1000 ms and 50 MiB |
| Sampler.StartTwice | src/utils/metrics.ts:33-41 | starting twice leaves one loop configured by the first call |

A readable but empty value file (`memory.current`, `pids.current`) reads as
0 rather than as absent, because `Number("")` is 0 in JavaScript; the model
keeps this behaviour of the code and states it in `Cgroup.EmptyValueReadsZero`.

## Left out

- Timers, `unref` and async overlap of ticks. A tick is one atomic step, so two
  ticks cannot interleave here; a slow tick that overlapped the next one could
  race on `prevCpu` and the counter.
- `ensureDirectory` (best-effort `mkdir`). The log directory is assumed to
  exist, since a missing one only makes appends fail, which `appendOk` already
  covers.
- The environment-variable defaults and the auto-start check at module load.
  `BuiltInDefaults` holds the defaults with no variable set.
- `JSON.stringify` is a parameter `encode` of `Tick`, and UTF-8 decoding of the
  control-group files is not modelled: their contents arrive as strings.
- The event-loop delay histogram and the runtime's memory counters are inputs.
  Their percentiles are given in nanoseconds, `None` when not finite.
- Text.ToNumber: only optionally signed decimal integers are read. Fractions,
  exponents, hexadecimal and `Infinity` give `None`, like a non-finite
  `Number()`, although JavaScript reads some of them as finite numbers.
  Control-group files hold decimal integers. Digit runs are read exactly,
  where JavaScript reads values above 2^53 inexactly and runs of more than
  about 309 digits as Infinity, hence `null`.
- CpuPercent.ComputeCpuPercent: numbers are exact reals, so IEEE-754 rounding
  and precision above 2^53 are not modelled. With zero cores, JavaScript's
  Infinity-then-clamp path is written out as the value 0.
- Sampler.Merge: an override explicitly set to `undefined` cannot be expressed.
  In JavaScript it would replace the default with `undefined`.
- `readFileSafe` is the identity on the file's contents and is folded into the
  `cpuStat` input.
- FileStore.AfterRotation: a size limit that is not a number (NaN from the
  environment) is not modelled; the limit is an integer.
