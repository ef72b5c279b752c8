/**
 * Readers and parsers for the Linux control-group v2 interface files
 * `memory.current`, `memory.max`, `pids.current`, `pids.max`, `cpu.stat` and
 * `cpu.max`. A read that failed is `None`; so is a value that is absent,
 * unparseable or the sentinel `max` ("unlimited").
 */
module Cgroup {
  import opened Wrappers
  import opened Text

  /**
   * The first line of a file, trimmed, or `None` when the read failed
   * (the text handling of `readFirstLineSafe`).
   */
  function FirstLineSafe(contents: Option<string>): (r: Option<string>)
    ensures r.Some? <==> contents.Some?
    ensures r.Some? ==> '\n' !in r.value && IsTrimmed(r.value)
    ensures r.Some? && '\n' !in contents.value ==> r.value == Trim(contents.value)
  {
    if contents.None? then None
    else
      var data := contents.value;
      LineEndSpec(data);
      var line := data[..LineEnd(data)];
      var t := Trim(line);
      TrimSpec(line);
      assert '\n' !in t by {
        var i := |line| - |TrimStart(line)|;
        forall k | 0 <= k < |t| ensures t[k] != '\n' {
          assert t[k] == line[i + k];
        }
      }
      assert '\n' !in data ==> line == data;
      Some(t)
  }

  /** Only the text before the first line feed matters, and it is trimmed. */
  lemma FirstLineOfLines(line: string, rest: string)
    requires '\n' !in line
    ensures FirstLineSafe(Some(line + "\n" + rest)) == Some(Trim(line))
  {
    var data := line + "\n" + rest;
    LineEndSpec(data);
    assert data[|line|] == '\n';
    assert forall k :: 0 <= k < |line| ==> data[k] == line[k];
    assert LineEnd(data) == |line|;
    assert data[..|line|] == line;
  }

  /** `parseNumber`: `null` stays `null`, otherwise `Number(text)` when it is finite. */
  function ParseNumber(text: Option<string>): (r: Option<int>)
    ensures text.None? ==> r.None?
    ensures text.Some? ==> r == ToNumber(text.value)
  {
    if text.None? then None else ToNumber(text.value)
  }

  /** Any integer written in decimal, with whitespace around it, is read back exactly. */
  lemma ParseNumberOfDecimal(n: int, w1: string, w2: string)
    requires AllSpace(w1) && AllSpace(w2)
    ensures ParseNumber(Some(w1 + IntToString(n) + w2)) == Some(n)
  {
    ToNumberOfDecimal(n, w1, w2);
  }

  const Unlimited := "max"

  /** Text that is not an optionally signed run of digits is no number. */
  lemma ParseNumberRejects(t: string, k: int)
    requires 0 <= k < |Trim(t)| && !IsDigit(Trim(t)[k])
    requires k > 0 || (Trim(t)[0] != '-' && Trim(t)[0] != '+') || |Trim(t)| == 1
    ensures ParseNumber(Some(t)).None?
  {
    if k == 0 && |Trim(t)| == 1 && (Trim(t)[0] == '-' || Trim(t)[0] == '+') {
      assert Trim(t) == [Trim(t)[0]];
      ToNumberRejectsLoneSign(t);
    } else {
      ToNumberRejectsStray(t, k);
    }
  }

  /** `max` is not a number: `parseNumber` gives `null` for it. */
  lemma ParseNumberOfMax()
    ensures ParseNumber(Some(Unlimited)).None?
  {
    TrimPadded([], Unlimited, []);
    assert [] + Unlimited + [] == Unlimited;
    ParseNumberRejects(Unlimited, 0);
  }

  /**
   * A value file that is readable but empty, or holds only a line feed,
   * reads as 0 and not as absent, because `Number("")` is 0.
   */
  lemma EmptyValueReadsZero()
    ensures ParseNumber(FirstLineSafe(Some(""))) == Some(0)
    ensures ParseNumber(FirstLineSafe(Some("\n"))) == Some(0)
  {
    FirstLineOfLines("", "");
    assert "" + "\n" + "" == "\n";
  }

  /**
   * `parseMemoryMax` and `parsePidsMax`, which are the same function: a
   * ceiling that is missing, empty or the sentinel `max` is `None`
   * (unlimited), anything else is read by `parseNumber`.
   */
  function ParseLimit(text: Option<string>): (r: Option<int>)
    ensures text.None? || text == Some("") || text == Some(Unlimited) ==> r.None?
    ensures text.Some? && text.value != "" && text.value != Unlimited ==> r == ParseNumber(text)
  {
    if text.None? || text.value == "" then None
    else if text.value == Unlimited then None
    else ParseNumber(text)
  }

  /** A ceiling written as a decimal integer is that number, never "unlimited". */
  lemma ParseLimitOfDecimal(n: int)
    ensures ParseLimit(Some(IntToString(n))) == Some(n)
  {
    ToNumberOfInt(n);
  }

  const UsageKey := "usage_usec"
  const ThrottledKey := "throttled_usec"

  /** The lines `parseCpuStat` scans: none when the file is unreadable or empty. */
  function StatLines(content: Option<string>): seq<string> {
    if content.None? || content.value == "" then [] else SplitLines(content.value)
  }

  /** The words of each line, as `line.trim().split(/\s+/)` gives them. */
  function LineWords(lines: seq<string>): (r: seq<seq<string>>)
    ensures |r| == |lines|
  {
    if lines == [] then [] else LineWords(lines[..|lines| - 1]) + [WsSplit(lines[|lines| - 1])]
  }

  /** A `key value` line: exactly two words, the first of them `key`. */
  predicate IsEntry(parts: seq<string>, key: string) {
    |parts| == 2 && parts[0] == key
  }

  /** `parts` is the last entry for `key`: every later line holds another key or another shape. */
  ghost predicate IsLastEntry(words: seq<seq<string>>, key: string, j: int) {
    0 <= j < |words| && IsEntry(words[j], key)
    && forall k :: j < k < |words| ==> !IsEntry(words[k], key)
  }

  /** The value of `key` in `cpu.stat`: read from the last line that is an entry for it. */
  function StatField(words: seq<seq<string>>, key: string): Option<int> {
    if words == [] then None
    else
      var parts := words[|words| - 1];
      if IsEntry(parts, key) then ParseNumber(Some(parts[1]))
      else StatField(words[..|words| - 1], key)
  }

  /** The last entry for `key` decides its value, whatever earlier entries said. */
  lemma {:induction false} StatFieldIsLastEntry(words: seq<seq<string>>, key: string, j: int)
    requires IsLastEntry(words, key, j)
    ensures StatField(words, key) == ParseNumber(Some(words[j][1]))
  {
    var n := |words| - 1;
    if j < n {
      assert !IsEntry(words[n], key);
      var init := words[..n];
      assert init[j] == words[j];
      assert IsLastEntry(init, key, j) by {
        forall k | j < k < |init| ensures !IsEntry(init[k], key) {
          assert init[k] == words[k];
        }
      }
      StatFieldIsLastEntry(init, key, j);
    }
  }

  /** A field with no entry at all is `None`, never 0. */
  lemma {:induction false} StatFieldWithoutEntry(words: seq<seq<string>>, key: string)
    requires forall j :: 0 <= j < |words| ==> !IsEntry(words[j], key)
    ensures StatField(words, key).None?
  {
    if words != [] {
      var init := words[..|words| - 1];
      assert forall j :: 0 <= j < |init| ==> init[j] == words[j];
      StatFieldWithoutEntry(init, key);
    }
  }

  /** The value of a field of a readable `cpu.stat` file. */
  function CpuStatField(content: Option<string>, key: string): Option<int> {
    StatField(LineWords(StatLines(content)), key)
  }

  /**
   * `parseCpuStat`: scans the lines of `cpu.stat` and keeps the last
   * `usage_usec` and `throttled_usec` values.
   */
  method ParseCpuStat(content: Option<string>) returns (usage: Option<int>, throttled: Option<int>)
    ensures content.None? || content == Some("") ==> usage.None? && throttled.None?
    ensures usage == CpuStatField(content, UsageKey)
    ensures throttled == CpuStatField(content, ThrottledKey)
  {
    if content.None? || content.value == "" {
      return None, None;
    }
    usage, throttled := None, None;
    var lines := SplitLines(content.value);
    for i := 0 to |lines|
      invariant usage == StatField(LineWords(lines[..i]), UsageKey)
      invariant throttled == StatField(LineWords(lines[..i]), ThrottledKey)
    {
      var parts := WsSplit(lines[i]);
      ghost var seen := LineWords(lines[..i]);
      assert LineWords(lines[..i + 1]) == seen + [parts] by {
        assert lines[..i + 1][..i] == lines[..i];
      }
      assert (seen + [parts])[..i] == seen;
      if |parts| != 2 {
        continue;
      }
      if parts[0] == UsageKey {
        usage := ParseNumber(Some(parts[1]));
      } else if parts[0] == ThrottledKey {
        throttled := ParseNumber(Some(parts[1]));
      }
    }
    assert lines[..|lines|] == lines;
  }

  /** `cpu.max` as parsed: quota and period when the quota is limited, and the cores they allow. */
  datatype CpuMax = CpuMax(quota: Option<int>, period: Option<int>, effectiveCores: nat)

  function Max(a: int, b: int): int {
    if a < b then b else a
  }

  const DefaultPeriod := 100000

  /** `max(1, floor(q / p))` is the number of whole periods in the quota, at least one. */
  lemma FloorCores(q: int, p: int)
    requires p > 0
    ensures Max(1, q / p) * p <= Max(q, p) < (Max(1, q / p) + 1) * p
  {
    var d, m := q / p, q % p;
    assert q == d * p + m && 0 <= m < p;
    if d < 1 {
      assert q < p;
    } else {
      assert (d + 1) * p == d * p + p;
    }
  }

  /** `Number(parts[1] || 100000)`: the period word, or the default when there is none. */
  function PeriodOf(parts: seq<string>): Option<int> {
    if |parts| >= 2 && parts[1] != "" then ToNumber(parts[1]) else Some(DefaultPeriod)
  }

  /** No usable quota: the container may use every core of the host. */
  function HostCpuMax(hostCores: nat): CpuMax {
    CpuMax(None, None, hostCores)
  }

  /**
   * `parseCpuMax`: `quota period` gives `max(1, floor(quota / period))`
   * cores, a missing period meaning 100000; an empty or unreadable file, the
   * quota `max`, an unparseable number or a period that is not positive fall
   * back to the host's core count.
   */
  function ParseCpuMax(text: Option<string>, hostCores: nat): (r: CpuMax)
    ensures text.None? || text == Some("") ==> r == HostCpuMax(hostCores)
    ensures text.Some? && WsSplit(text.value)[0] == Unlimited ==> r == HostCpuMax(hostCores)
    ensures r.quota.None? ==> r == HostCpuMax(hostCores)
    ensures r.quota.Some? ==> r.period.Some? && r.period.value > 0 && r.effectiveCores >= 1
    ensures r.quota.Some? ==>
      r.effectiveCores * r.period.value <= Max(r.quota.value, r.period.value) < (r.effectiveCores + 1) * r.period.value
  {
    if text.None? || text.value == "" then HostCpuMax(hostCores)
    else
      var parts := WsSplit(text.value);
      if parts[0] == Unlimited then HostCpuMax(hostCores)
      else
        var quota := ToNumber(parts[0]);
        var period := PeriodOf(parts);
        if quota.None? || period.None? || period.value <= 0 then HostCpuMax(hostCores)
        else
          var q, p := quota.value, period.value;
          var cores := Max(1, q / p);
          FloorCores(q, p);
          CpuMax(quota, period, cores)
  }

  /**
   * A limited quota `quota period` allows `max(1, floor(quota / period))`
   * cores when the period is positive; otherwise the host's cores.
   */
  lemma ParseCpuMaxOfQuota(quota: int, period: int, hostCores: nat)
    ensures ParseCpuMax(Some(IntToString(quota) + " " + IntToString(period)), hostCores)
      == if period > 0 then CpuMax(Some(quota), Some(period), Max(1, quota / period)) else HostCpuMax(hostCores)
  {
    WsSplitTwoWords(IntToString(quota), IntToString(period));
    ToNumberOfInt(quota);
    ToNumberOfInt(period);
  }

  /**
   * For any non-empty first line: the quota and period are the parsed first
   * and second words exactly when the first word is not `max`, both parse
   * and the period is positive; in every other case the host's cores.
   */
  lemma ParseCpuMaxParts(text: string, hostCores: nat)
    requires text != ""
    ensures var parts, r := WsSplit(text), ParseCpuMax(Some(text), hostCores);
      var accepted := parts[0] != Unlimited && ToNumber(parts[0]).Some?
        && PeriodOf(parts).Some? && PeriodOf(parts).value > 0;
      (accepted ==> r.quota == ToNumber(parts[0]) && r.period == PeriodOf(parts))
      && (!accepted ==> r == HostCpuMax(hostCores))
  {
  }

  /** A first word that is neither `max` nor a number falls back to the host, whatever follows. */
  lemma ParseCpuMaxBadQuota(quota: string, period: string, hostCores: nat)
    requires IsWord(quota) && IsWord(period) && quota != Unlimited && ToNumber(quota).None?
    ensures ParseCpuMax(Some(quota), hostCores) == HostCpuMax(hostCores)
    ensures ParseCpuMax(Some(quota + " " + period), hostCores) == HostCpuMax(hostCores)
  {
    WsSplitOneWord(quota);
    WsSplitTwoWords(quota, period);
  }

  /** A period that is not a number falls back to the host. */
  lemma ParseCpuMaxBadPeriod(quota: int, period: string, hostCores: nat)
    requires IsWord(period) && ToNumber(period).None?
    ensures ParseCpuMax(Some(IntToString(quota) + " " + period), hostCores) == HostCpuMax(hostCores)
  {
    WsSplitTwoWords(IntToString(quota), period);
  }

  /** A quota written alone is measured against the default period of 100000. */
  lemma ParseCpuMaxOfQuotaOnly(quota: int, hostCores: nat)
    ensures ParseCpuMax(Some(IntToString(quota)), hostCores)
      == CpuMax(Some(quota), Some(DefaultPeriod), Max(1, quota / DefaultPeriod))
  {
    WsSplitOneWord(IntToString(quota));
    ToNumberOfInt(quota);
  }

  /** An unlimited quota, with or without a period, falls back to the host. */
  lemma ParseCpuMaxUnlimited(period: string, hostCores: nat)
    requires IsWord(period)
    ensures ParseCpuMax(Some(Unlimited), hostCores) == HostCpuMax(hostCores)
    ensures ParseCpuMax(Some(Unlimited + " " + period), hostCores) == HostCpuMax(hostCores)
  {
    WsSplitOneWord(Unlimited);
    WsSplitTwoWords(Unlimited, period);
  }

  /** `memory.max` holding `max` is no ceiling; holding 104857600 it is 100 MiB. */
  lemma ExampleMemoryMax()
    ensures ParseLimit(Some("max")) == None
    ensures ParseLimit(Some("104857600")) == Some(104857600)
  {
    assert NatToString(10) == "10";
    assert NatToString(104) == "104";
    assert NatToString(1048) == "1048";
    assert NatToString(10485) == "10485";
    assert NatToString(104857) == "104857";
    assert NatToString(1048576) == "1048576";
    assert NatToString(10485760) == "10485760";
    assert IntToString(104857600) == "104857600";
    ParseLimitOfDecimal(104857600);
  }

  /** The two keys are single words. */
  lemma KeysAreWords()
    ensures IsWord(UsageKey) && IsWord(ThrottledKey)
  {
  }

  /** Two `key value` lines, split into lines and then into words. */
  lemma WordsOfTwoEntries(us: string, ts: string)
    requires IsWord(us) && IsWord(ts)
    ensures LineWords(StatLines(Some(UsageKey + " " + us + "\n" + ThrottledKey + " " + ts)))
      == [[UsageKey, us], [ThrottledKey, ts]]
  {
    var first, second := UsageKey + " " + us, ThrottledKey + " " + ts;
    var content := first + "\n" + second;
    assert UsageKey + " " + us + "\n" + ThrottledKey + " " + ts == content;
    KeysAreWords();
    assert '\n' !in first by {
      assert forall k :: 0 <= k < |first| ==> !IsSpace(first[k]) || first[k] == ' ';
    }
    assert '\n' !in second by {
      assert forall k :: 0 <= k < |second| ==> !IsSpace(second[k]) || second[k] == ' ';
    }
    assert first[|first| - 1] != '\r';
    SplitLinesFirst(first, second);
    SplitLinesSingle(second);
    assert StatLines(Some(content)) == [first, second];
    WsSplitTwoWords(UsageKey, us);
    WsSplitTwoWords(ThrottledKey, ts);
    assert [first, second][..1] == [first];
    assert [first][..0] == [];
  }

  /**
   * A `cpu.stat` of a usage line followed by a throttling line yields both
   * values exactly.
   */
  lemma CpuStatOfTwoLines(usage: nat, throttled: nat)
    ensures var content := UsageKey + " " + IntToString(usage) + "\n" + ThrottledKey + " " + IntToString(throttled);
      CpuStatField(Some(content), UsageKey) == Some(usage)
      && CpuStatField(Some(content), ThrottledKey) == Some(throttled)
  {
    var us, ts := IntToString(usage), IntToString(throttled);
    WordsOfTwoEntries(us, ts);
    ToNumberOfInt(usage);
    ToNumberOfInt(throttled);
    var words := [[UsageKey, us], [ThrottledKey, ts]];
    assert ThrottledKey != UsageKey by { assert ThrottledKey[0] != UsageKey[0]; }
    assert words[..1] == [[UsageKey, us]];
    assert StatField(words[..1], UsageKey) == Some(usage);
  }
}
