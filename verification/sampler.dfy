/**
 One sampling loop as a whole: its configuration, what one pass through its
 `while True` body yields (alerts, then a pause), a finite run of passes over
 given readings, and the arithmetic of when each pass's alerts appear.

 Python raises `ValueError` from `sleep` on a negative length, and from
 `psutil.cpu_percent` on a negative interval. Nothing in the loops catches
 it, so the thread ends there: a pass whose pause would be negative is the
 last pass of its run.
 */
module Sampler {
  import opened Alerts
  import opened Ticks

  /** A sampling loop as `main` starts it: the loop's function together with its arguments. */
  datatype Sampler =
    | CpuSampler(threshold: int, interval: int)
    | MemorySampler(threshold: int, interval: int)
    | DiskSampler(threshold: int, ignoreList: Option<seq<string>>, interval: int)
    | ProcessSampler(threshold: int, interval: int)

  /** What the `psutil` calls of one pass return. */
  datatype Reading =
    | CpuReading(percent: real)
    | MemoryReading(used: nat, total: nat)
    | DiskReading(partitions: seq<Partition>)
    | ProcessReading(pids: seq<int>)

  function KindOf(s: Sampler): Kind {
    match s
    case CpuSampler(_, _) => Cpu
    case MemorySampler(_, _) => Memory
    case DiskSampler(_, _, _) => Disk
    case ProcessSampler(_, _) => Processes
  }

  /**
   The reading is of the sampler's own kind, and every usage figure the pass
   divides by is non-zero (the source does not handle a zero total).
   */
  predicate Fits(s: Sampler, r: Reading) {
    match s
    case CpuSampler(_, _) => r.CpuReading?
    case MemorySampler(_, _) => r.MemoryReading? && r.total > 0
    case DiskSampler(_, ignoreList, _) =>
      r.DiskReading? && UsageKnown(r.partitions, ResolveIgnoreList(ignoreList))
    case ProcessSampler(_, _) => r.ProcessReading?
  }

  /**
   The interval lets the loop run forever: the CPU loop sleeps `interval - 1`
   and so needs `interval >= 1`; the other loops sleep `interval` and need
   `interval >= 0`.
   */
  predicate ValidInterval(s: Sampler) {
    if s.CpuSampler? then s.interval >= 1 else s.interval >= 0
  }

  /** Seconds a pass spends inside its measurement: `cpu_percent` blocks for its interval; the other queries return at once. */
  function MeasureTime(s: Sampler): nat {
    if s.CpuSampler? && s.interval > 0 then s.interval else 0
  }

  /** Seconds slept at the end of a pass. */
  function Pause(s: Sampler): nat
    requires ValidInterval(s)
  {
    if s.CpuSampler? then s.interval - 1 else s.interval
  }

  /** Seconds from the start of one pass to the start of the next. */
  function Period(s: Sampler): nat
    requires ValidInterval(s)
  {
    MeasureTime(s) + Pause(s)
  }

  function AsSeq(o: Option<Alert>): seq<Alert> {
    match o
    case None => []
    case Some(a) => [a]
  }

  /** The alerts of one pass, in logging order, and the pause after it; `None` when the pass raises instead. */
  datatype TickOutcome = TickOutcome(alerts: seq<Alert>, pause: Option<nat>)

  /** One pass through a loop's body. */
  function Tick(s: Sampler, r: Reading): (t: TickOutcome)
    requires Fits(s, r)
    ensures forall a | a in t.alerts :: a.kind == KindOf(s) && Exceeds(a.value, s.threshold)
    ensures !s.DiskSampler? ==> |t.alerts| <= 1
    ensures t.pause.Some? <==> ValidInterval(s)
    ensures t.pause.Some? ==> t.pause.value == Pause(s)
    ensures s.CpuSampler? && s.interval < 0 ==> t.alerts == []
    ensures s.CpuSampler? && s.interval >= 0 ==>
      (t.alerts != [] <==> r.percent > s.threshold as real) &&
      (t.alerts != [] ==> t.alerts == [Alert(Cpu, None, r.percent)])
    ensures s.MemorySampler? ==>
      (t.alerts != [] <==> r.used * 100 > s.threshold * r.total) &&
      (t.alerts != [] ==> t.alerts == [Alert(Memory, None, Percent(r.used, r.total))])
    ensures s.ProcessSampler? ==>
      (t.alerts != [] <==> |r.pids| > s.threshold) &&
      (t.alerts != [] ==> t.alerts == [Alert(Processes, None, |r.pids| as real)])
    ensures s.DiskSampler? ==>
      (forall m :: m in Mounts(t.alerts) <==>
        exists i :: 0 <= i < |r.partitions| && r.partitions[i].mountpoint == m &&
          RaisesAlert(r.partitions[i], ResolveIgnoreList(s.ignoreList), s.threshold)) &&
      IsSubsequence(Mounts(t.alerts), Mountpoints(r.partitions))
  {
    var pause := if ValidInterval(s) then Some(Pause(s)) else None;
    match s
    case CpuSampler(threshold, interval) =>
      if interval < 0 then TickOutcome([], None)
      else TickOutcome(AsSeq(CpuTick(r.percent, threshold)), pause)
    case MemorySampler(threshold, _) =>
      TickOutcome(AsSeq(MemoryTick(r.used, r.total, threshold)), pause)
    case DiskSampler(threshold, ignoreList, _) =>
      TickOutcome(DiskTick(r.partitions, ignoreList, threshold), pause)
    case ProcessSampler(threshold, _) =>
      TickOutcome(AsSeq(ProcessTick(r.pids, threshold)), pause)
  }

  predicate AllFit(s: Sampler, rs: seq<Reading>) {
    forall i :: 0 <= i < |rs| ==> Fits(s, rs[i])
  }

  /**
   The loop run over a finite sequence of readings, one per pass: the alerts of
   each pass that was carried out, in pass order. A pass that raises ends the run.
   */
  function Run(s: Sampler, rs: seq<Reading>): (r: seq<seq<Alert>>)
    requires AllFit(s, rs)
    ensures |r| <= |rs|
    ensures ValidInterval(s) ==> |r| == |rs|
    ensures !ValidInterval(s) && |rs| > 0 ==> |r| == 1
    ensures forall k, a :: 0 <= k < |r| && a in r[k] ==> a.kind == KindOf(s) && Exceeds(a.value, s.threshold)
    decreases |rs|
  {
    if |rs| == 0 then []
    else
      var t := Tick(s, rs[0]);
      if t.pause.None? then [t.alerts]
      else
        assert AllFit(s, rs[1..]) by {
          assert forall i :: 0 <= i < |rs| - 1 ==> rs[1..][i] == rs[i + 1];
        }
        [t.alerts] + Run(s, rs[1..])
  }

  /**
   With a valid interval, pass `k` of the run yields exactly what a lone pass
   over reading `k` yields: passes are strictly sequential, in reading order,
   and one pass's outcome depends on nothing but its own reading.
   */
  lemma {:induction false} RunIsTickwise(s: Sampler, rs: seq<Reading>)
    requires AllFit(s, rs) && ValidInterval(s)
    ensures forall k :: 0 <= k < |rs| ==> Run(s, rs)[k] == Tick(s, rs[k]).alerts
    decreases |rs|
  {
    if |rs| > 0 {
      assert AllFit(s, rs[1..]) by {
        assert forall i :: 0 <= i < |rs| - 1 ==> rs[1..][i] == rs[i + 1];
      }
      RunIsTickwise(s, rs[1..]);
      assert forall k :: 1 <= k < |rs| ==> rs[k] == rs[1..][k - 1];
    }
  }

  /**
   With an invalid interval the thread dies in its first pass: the CPU loop
   with a negative interval before it measures anything, the other cases
   after the first pass's alerts, when `sleep` is handed a negative length.
   */
  lemma InvalidIntervalStopsAfterFirstTick(s: Sampler, rs: seq<Reading>)
    requires AllFit(s, rs) && !ValidInterval(s) && |rs| > 0
    ensures Run(s, rs) == [Tick(s, rs[0]).alerts]
    ensures s.CpuSampler? && s.interval < 0 ==> Run(s, rs) == [[]]
  {
  }

  /**
   Pass lengths: the CPU loop measures for `interval` seconds and then sleeps
   `interval - 1`, so its passes are `2 * interval - 1` seconds apart; the
   other loops sleep exactly `interval`, so theirs are `interval` apart. No
   pass is shorter than the configured interval, and only the CPU loop with
   `interval > 1` takes longer.
   */
  lemma PeriodOfEachLoop(s: Sampler)
    requires ValidInterval(s)
    ensures s.CpuSampler? ==> MeasureTime(s) == s.interval && Pause(s) == s.interval - 1
    ensures s.CpuSampler? ==> Period(s) == 2 * s.interval - 1
    ensures !s.CpuSampler? ==> MeasureTime(s) == 0 && Pause(s) == s.interval && Period(s) == s.interval
    ensures Period(s) >= s.interval
    ensures Period(s) == s.interval <==> !s.CpuSampler? || s.interval == 1
  {
  }

  /** Seconds after the thread starts at which pass `k` logs its alerts: after `k` full passes and its own measurement. */
  function EmitTime(s: Sampler, k: nat): nat
    requires ValidInterval(s)
  {
    k * Period(s) + MeasureTime(s)
  }

  /**
   Alerts of later passes appear later, and alerts of passes `k < k'` are at
   least `(k' - k) * interval` seconds apart.
   */
  lemma AlertSpacing(s: Sampler, k: nat, k': nat)
    requires ValidInterval(s) && k < k'
    ensures EmitTime(s, k) <= EmitTime(s, k')
    ensures EmitTime(s, k') - EmitTime(s, k) >= (k' - k) * s.interval
  {
  }
}
