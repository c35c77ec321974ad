# System health monitor: per-tick alert rules

`Task_2_Monitor_Script/script_v1.py` starts four background threads. Each runs an
endless loop. In every pass the loop reads one metric through `psutil`,
compares it with a threshold, logs and prints a warning when the threshold is
exceeded, and sleeps. The four metrics are CPU load, memory occupancy,
filesystem occupancy per mount point, and the number of running processes.

This project models what one pass decides, with the `psutil` readings as
arguments:

- `Ticks.CpuTick`, `Ticks.MemoryTick` and `Ticks.ProcessTick` are the scalar rules.
  `Ticks.DiskTick` and `Ticks.DiskScan` are the partition walk with its ignore-keyword
  filter. `Substring.Contains` is Python's `keyword in mountpoint`.
- `Sampler.Tick` is one pass of one loop, including the pause after it.
  `Sampler.Run` is a finite run of passes over given readings. A pass whose
  `sleep` (or `cpu_percent`) would get a negative argument raises `ValueError`,
  which ends the thread, so it is the last pass of its run.
- `Wiring` holds the thresholds `main` passes (10, 1, 1, 100), the command-line
  defaults (interval 5 for every loop, ignore list `["snap"]`), and the four
  samplers `main` starts.

An alert is data: `Alert(kind, mount, value)`. Percentages are exact reals
`used / total * 100`. The memory and disk comparisons are also proved
equivalent to the integer comparison `used * 100 > threshold * total`.

Code and documentation disagree about the CPU loop's cadence. The docstring
says "every 'interval' seconds". The code blocks in `cpu_percent(interval)` and
then sleeps `interval - 1`, so passes start `2 * interval - 1` seconds apart
(9 seconds with the default 5). The model follows the code
(`Sampler.PeriodOfEachLoop`). The only exception the model represents is
the `ValueError` that `sleep` or `cpu_percent` raises on a negative argument,
which ends the thread. A zero total is excluded by precondition, and other
exceptions are not represented (see "Left out").

## Model

| member | source | states |
|---|---|---|
| `Substring.ContainsIffOccurs` | Task_2_Monitor_Script/script_v1.py:44 | the executable keyword test holds iff the keyword occurs in the mount point at some position, in both directions |
| `Substring.Contains` | Task_2_Monitor_Script/script_v1.py:44 | the executable `keyword in mountpoint`: tries the keyword at each start position from left to right; its meaning is stated by `Substring.ContainsIffOccurs` |
| `Substring.EmptyNeedleOccursEverywhere` | Task_2_Monitor_Script/script_v1.py:44 | the empty keyword is contained in every mount point, as with Python's `in` |
| `Substring.LongNeedleNeverOccurs` | Task_2_Monitor_Script/script_v1.py:44 | a keyword longer than the mount point is never contained in it |
| `Alerts.Percent` | Task_2_Monitor_Script/script_v1.py:31 | the usage `used / total * 100` as an exact real: it times `total` gives `used * 100`, it is never negative, and it is at most 100 when `used <= total` |
| `Alerts.PercentExceedsIff` | Task_2_Monitor_Script/script_v1.py:31-32 | for `total > 0`, `used / total * 100 > threshold` iff `used * 100 > threshold * total` |
| `Ticks.CpuTick` | Task_2_Monitor_Script/script_v1.py:21-24 | alerts iff the measured percentage is strictly above the threshold; the alert carries that percentage; equality raises nothing |
| `Ticks.MemoryTick` | Task_2_Monitor_Script/script_v1.py:30-34 | alerts iff `used * 100 > threshold * total`; the alert carries the usage percentage; usage exactly at the threshold raises nothing |
| `Ticks.ProcessTick` | Task_2_Monitor_Script/script_v1.py:56-59 | alerts iff the number of pids exceeds the threshold; the alert reports that same count; equality raises nothing |
| `Ticks.ResolveIgnoreList` | Task_2_Monitor_Script/script_v1.py:39-40 | an absent ignore list is replaced by the empty list; a given one is used as is |
| `Ticks.Ignored` | Task_2_Monitor_Script/script_v1.py:44 | a mount point is skipped iff some keyword of the ignore list is contained in it |
| `Ticks.DiskScan` | Task_2_Monitor_Script/script_v1.py:43-50 | at most one alert per partition; every alert is a disk alert naming a mount point that no keyword matches, with usage strictly above the threshold |
| `Ticks.DiskTick` | Task_2_Monitor_Script/script_v1.py:39-50 | a mount point is alerted iff some partition carrying it is not ignored and has `used * 100 > threshold * total`; alerted mount points are a subsequence of the enumerated ones |
| `Ticks.DiskScanSingle` | Task_2_Monitor_Script/script_v1.py:44-48 | a single partition yields exactly its own alert when it passes the filter and the cross-multiplied threshold test, and nothing otherwise |
| `Ticks.DiskScanAppend` | Task_2_Monitor_Script/script_v1.py:43-50 | the scan of a concatenation is the concatenation of the scans: partitions are handled one by one in enumeration order |
| `Ticks.DiskAlertsFollowPartitionOrder` | Task_2_Monitor_Script/script_v1.py:43-50 | the alerted mount points form a subsequence of the enumerated mount points |
| `Ticks.DiskAlertIff` | Task_2_Monitor_Script/script_v1.py:43-50 | a mount point is alerted iff some partition carrying it is not ignored and is over the threshold, in both directions |
| `Ticks.DiskAlertIffAll` | Task_2_Monitor_Script/script_v1.py:43-50 | the same equivalence for every mount point at once |
| `Ticks.IgnoredPartitionNeverAlerts` | Task_2_Monitor_Script/script_v1.py:44-46 | an ignored partition never alerts, and changing its usage figures, even to a zero total, changes nothing, since they are never queried |
| `Ticks.EmptyKeywordIgnoresEverything` | Task_2_Monitor_Script/script_v1.py:44-45 | an empty keyword in the ignore list suppresses every disk alert |
| `Ticks.NoIgnoreListEvaluatesAll` | Task_2_Monitor_Script/script_v1.py:39-44 | with no ignore list or an empty one nothing is skipped, every partition's usage is needed, and alerts depend only on usage; `None` behaves as `[]` |
| `Ticks.DiskThresholdMonotone` | Task_2_Monitor_Script/script_v1.py:48 | raising the disk threshold never adds an alerted mount point |
| `Sampler.MeasureTime` | Task_2_Monitor_Script/script_v1.py:21 | seconds spent measuring: the CPU loop blocks in `cpu_percent` for its interval; the other queries are taken as instantaneous |
| `Sampler.Pause` | Task_2_Monitor_Script/script_v1.py:25 | seconds slept after a pass: `interval - 1` for the CPU loop (line 25), `interval` for the others (lines 35, 51, 60) |
| `Sampler.Period` | Task_2_Monitor_Script/script_v1.py:20-25 | seconds between pass starts: measurement plus pause; its values are stated by `Sampler.PeriodOfEachLoop` |
| `Sampler.Tick` | Task_2_Monitor_Script/script_v1.py:18-60 | one pass of any loop: CPU, memory and process passes alert exactly when the reading is strictly over the threshold (memory by `used * 100 > threshold * total`) and the alert carries that reading; a disk pass alerts a mount point iff some partition carrying it is not ignored and over the threshold, in enumeration order; a negative CPU interval raises before measuring; the pass ends in a pause iff the interval is valid, and that pause is the loop's sleep length |
| `Sampler.Run` | Task_2_Monitor_Script/script_v1.py:18-60 | a run has one entry per pass carried out: all passes when the interval is valid, only the first otherwise; every alert in it has the loop's kind and exceeds its threshold |
| `Sampler.RunIsTickwise` | Task_2_Monitor_Script/script_v1.py:18-60 | with a valid interval, pass `k` of a run yields exactly what a lone pass over reading `k` yields |
| `Sampler.InvalidIntervalStopsAfterFirstTick` | Task_2_Monitor_Script/script_v1.py:21-25 | with an invalid interval the thread dies in its first pass; a negative CPU interval raises before any reading |
| `Sampler.PeriodOfEachLoop` | Task_2_Monitor_Script/script_v1.py:21-35 | the CPU loop measures for `interval` and sleeps `interval - 1` (period `2 * interval - 1`); the memory, disk and process loops sleep exactly `interval`; no period is below the interval |
| `Sampler.AlertSpacing` | Task_2_Monitor_Script/script_v1.py:18-60 | alerts of later passes appear later, and passes `k < k'` are at least `(k' - k) * interval` seconds apart |
| `Wiring.Samplers` | Task_2_Monitor_Script/script_v1.py:64-69 | `main` starts the CPU, memory, disk and process loops in that order with thresholds 10, 1, 1 and 100, each with its own interval argument, the disk loop with the ignore list |
| `Wiring.DefaultArguments` | Task_2_Monitor_Script/script_v1.py:11-15 | the command-line defaults: interval 5 for every loop and ignore list `["snap"]`; its consequences are stated by `Wiring.DefaultWiring` |
| `Wiring.DefaultWiring` | Task_2_Monitor_Script/script_v1.py:11-68 | with default options every loop keeps running, the CPU loop's period is 9 seconds and the others' 5, and the thresholds are 10, 1, 1 and 100 |
| `Wiring.DefaultIgnoreListSkipsSnap` | Task_2_Monitor_Script/script_v1.py:15 | with the default ignore list, exactly the mount points containing "snap" are skipped |
| `Wiring.KeywordDefaultsOverridden` | Task_2_Monitor_Script/script_v1.py:18-53 | the loop functions' own defaults (80/10, 80/10, 80/None/1800, 100/15) give periods 19, 10, 1800 and 15 with nothing ignored; `main` always replaces the 80% thresholds and keeps 100 for processes |
| `Wiring.ScenarioCpuAboveThreshold` | Task_2_Monitor_Script/script_v1.py:21-24 | a 15% load against threshold 10 raises one CPU alert carrying 15% |
| `Wiring.ScenarioMemoryBelowThreshold` | Task_2_Monitor_Script/script_v1.py:30-32 | 500 of 100000 bytes used (0.5%) raises no memory alert at threshold 1 |
| `Wiring.ScenarioDiskIgnoresSnap` | Task_2_Monitor_Script/script_v1.py:43-50 | with `/` at 90% and `/snap/x` at 99%, only `/` alerts |
| `Wiring.ScenarioProcessesAboveThreshold` | Task_2_Monitor_Script/script_v1.py:56-58 | 150 processes against threshold 100 raise one alert reporting 150 |

## Left out

- The `psutil` queries (`cpu_percent`, `virtual_memory`, `disk_partitions`, `disk_usage`, `pids`) are foreign OS calls. Their results are the `Sampler.Reading` arguments.
- `logging.basicConfig`, `logging.warning` and `print` are I/O. An alert is modelled as the data both output lines carry, not as formatted text.
- The `:.2f` formatting is left out: an alert carries the value, not its text.
- Ticks.MemoryTick, Ticks.DiskScan: usage is computed with exact reals, not floats, so a usage within rounding error of the threshold can compare differently. Python evaluates `7/100*100` to `7.000000000000001`, which is `> 7`, while `MemoryTick(7, 100, 7)` raises nothing. At `main`'s threshold of 1 the two agree, because `1/100*100` is exactly `1.0`.
- Exceptions from `psutil` other than the negative-interval `ValueError` are not represented: an `OSError` or `PermissionError` from `disk_usage` (line 46) or a failure of any other query. The partial alerts of a disk pass that raises at partition `j`, after logging partitions `0..j-1`, are not represented either. The model has no failure value for a reading.
- The threads, `start`/`join` and the `while True` loops are concurrency and non-termination. The model covers one pass, or a finite run of passes over given readings.
- `sleep` and wall-clock time: only the arithmetic of the pause length is kept. The memory, disk and process queries are taken to take no time.
- The `argparse` mechanics of `get_arguments` are left out. Only the option defaults are kept, as `Wiring.DefaultArguments`.
- A zero `total` and a partition that vanishes between enumeration and `disk_usage` are not handled by the source: Python would raise and end the thread. The model does not represent this. `total > 0` is a precondition for every figure the pass divides by.
