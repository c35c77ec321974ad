/**
 The configuration `main` starts the four loops with: the command-line
 defaults of `get_arguments` and the thresholds `main` passes, plus the
 keyword defaults of the loop functions themselves (which `main` always
 overrides). Scenarios of one pass under this wiring close the module.
 */
module Wiring {
  import opened Alerts
  import opened Ticks
  import opened Sampler
  import opened Substring

  /** Thresholds passed by `main`: percentages for CPU, memory and disk, a count for processes. */
  const CpuThreshold: int := 10
  const MemoryThreshold: int := 1
  const DiskThreshold: int := 1
  const ProcessThreshold: int := 100

  /** Defaults of the command-line options. */
  const DefaultInterval: int := 5
  const DefaultIgnoreList: seq<string> := ["snap"]

  /** Keyword defaults of the loop functions, used only when one is called without arguments. */
  const CpuKeywordDefaults := CpuSampler(80, 10)
  const MemoryKeywordDefaults := MemorySampler(80, 10)
  const DiskKeywordDefaults := DiskSampler(80, None, 1800)
  const ProcessKeywordDefaults := ProcessSampler(100, 15)

  /** The parsed command line. `-il` takes one or more keywords. */
  datatype Arguments = Arguments(
    cpuInterval: int,
    memoryInterval: int,
    diskInterval: int,
    processInterval: int,
    ignoreList: seq<string>)

  const DefaultArguments := Arguments(DefaultInterval, DefaultInterval, DefaultInterval, DefaultInterval, DefaultIgnoreList)

  /**
   The four threads `main` starts, in start order: each loop gets its own
   interval from the command line, the fixed threshold of its kind, and the
   disk loop gets the ignore list.
   */
  function Samplers(args: Arguments): (r: seq<Sampler>)
    ensures |r| == 4
    ensures KindOf(r[0]) == Cpu && KindOf(r[1]) == Memory && KindOf(r[2]) == Disk && KindOf(r[3]) == Processes
    ensures r[0].interval == args.cpuInterval && r[1].interval == args.memoryInterval
    ensures r[2].interval == args.diskInterval && r[3].interval == args.processInterval
    ensures r[2].ignoreList == Some(args.ignoreList)
    ensures r[0].threshold == 10 && r[1].threshold == 1 && r[2].threshold == 1 && r[3].threshold == 100
  {
    [ CpuSampler(CpuThreshold, args.cpuInterval),
      MemorySampler(MemoryThreshold, args.memoryInterval),
      DiskSampler(DiskThreshold, Some(args.ignoreList), args.diskInterval),
      ProcessSampler(ProcessThreshold, args.processInterval) ]
  }

  /**
   With no options given, every loop runs forever: the CPU loop starts a pass
   every 9 seconds (5 measuring, 4 sleeping), the others every 5 seconds; the
   thresholds are 10, 1, 1 and 100.
   */
  lemma DefaultWiring()
    ensures forall s | s in Samplers(DefaultArguments) :: ValidInterval(s)
    ensures Period(Samplers(DefaultArguments)[0]) == 9
    ensures forall i | 1 <= i < 4 :: Period(Samplers(DefaultArguments)[i]) == 5
    ensures [Samplers(DefaultArguments)[0].threshold, Samplers(DefaultArguments)[1].threshold,
             Samplers(DefaultArguments)[2].threshold, Samplers(DefaultArguments)[3].threshold] == [10, 1, 1, 100]
  {
  }

  /** With no options given, the disk loop skips exactly the mount points containing "snap". */
  lemma DefaultIgnoreListSkipsSnap()
    ensures forall m :: Ignored(m, ResolveIgnoreList(Samplers(DefaultArguments)[2].ignoreList)) <==> Contains(m, "snap")
  {
  }

  /**
   The loop functions' own keyword defaults, which `main` never relies on:
   CPU every 19 seconds at 80%, memory every 10 seconds at 80%, disk every
   1800 seconds at 80% with nothing ignored, processes every 15 seconds above
   100. Whatever the command line, `main` replaces the 80% thresholds by its
   own and keeps 100 for processes.
   */
  lemma KeywordDefaultsOverridden(args: Arguments)
    ensures Period(CpuKeywordDefaults) == 19 && Period(MemoryKeywordDefaults) == 10
    ensures Period(DiskKeywordDefaults) == 1800 && Period(ProcessKeywordDefaults) == 15
    ensures forall m :: !Ignored(m, ResolveIgnoreList(DiskKeywordDefaults.ignoreList))
    ensures Samplers(args)[0].threshold != CpuKeywordDefaults.threshold
    ensures Samplers(args)[1].threshold != MemoryKeywordDefaults.threshold
    ensures Samplers(args)[2].threshold != DiskKeywordDefaults.threshold
    ensures Samplers(args)[3].threshold == ProcessKeywordDefaults.threshold
  {
  }

  /** A load of 15% against the CPU threshold of 10 raises one alert carrying 15%. */
  lemma ScenarioCpuAboveThreshold()
    ensures Tick(Samplers(DefaultArguments)[0], CpuReading(15.0)).alerts == [Alert(Cpu, None, 15.0)]
  {
  }

  /** 500 of 100000 bytes used is 0.5%, below the memory threshold of 1%: no alert. */
  lemma ScenarioMemoryBelowThreshold()
    ensures Tick(Samplers(DefaultArguments)[1], MemoryReading(500, 100000)).alerts == []
  {
  }

  /** "/" at 90% alerts; "/snap/x" at 99% is ignored under the default ignore list. */
  lemma ScenarioDiskIgnoresSnap()
    ensures Fits(Samplers(DefaultArguments)[2], DiskReading([Partition("/", 90, 100), Partition("/snap/x", 99, 100)]))
    ensures Tick(Samplers(DefaultArguments)[2], DiskReading([Partition("/", 90, 100), Partition("/snap/x", 99, 100)])).alerts
         == [Alert(Disk, Some("/"), 90.0)]
  {
  }

  /** 150 processes against the threshold of 100 raise one alert reporting 150. */
  lemma ScenarioProcessesAboveThreshold(pids: seq<int>)
    requires |pids| == 150
    ensures Tick(Samplers(DefaultArguments)[3], ProcessReading(pids)).alerts == [Alert(Processes, None, 150.0)]
  {
  }
}
