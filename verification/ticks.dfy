/**
 One pass through the body of each of the four sampling loops, lifted out of
 its `while True` and with the `psutil` readings passed in as arguments:

 - the CPU loop compares one measured percentage with its threshold;
 - the memory loop turns `used` and `total` into `used / total * 100` first;
 - the disk loop walks the partitions in enumeration order, skips every mount
   point that contains an ignore keyword, and checks the usage of the rest;
 - the process loop compares the number of process ids with its threshold.

 A tick yields the alerts it would log and print, in the order it would
 log them.
 */
module Ticks {
  import opened Alerts
  import opened Substring

  // ---------------------------------------------------------------- CPU

  /** The CPU tick: alert, carrying the measured percentage, iff it is strictly above the threshold. */
  function CpuTick(percent: real, threshold: int): (r: Option<Alert>)
    ensures r.Some? <==> percent > threshold as real
    ensures r.Some? ==> r.value == Alert(Cpu, None, percent)
    ensures percent == threshold as real ==> r == None
  {
    if Exceeds(percent, threshold) then Some(Alert(Cpu, None, percent)) else None
  }

  // ------------------------------------------------------------- memory

  /**
   The memory tick. Over the integers, it alerts iff `used * 100 > threshold * total`;
   the alert carries the usage percentage.
   */
  function MemoryTick(used: nat, total: nat, threshold: int): (r: Option<Alert>)
    requires total > 0
    ensures r.Some? <==> used * 100 > threshold * total
    ensures r.Some? ==> r.value == Alert(Memory, None, Percent(used, total))
    ensures used * 100 == threshold * total ==> r == None
  {
    PercentExceedsIff(used, total, threshold);
    var usage := Percent(used, total);
    if Exceeds(usage, threshold) then Some(Alert(Memory, None, usage)) else None
  }

  // ---------------------------------------------------------- processes

  /** The process tick: alert iff there are more process ids than the threshold; the alert reports that count. */
  function ProcessTick(pids: seq<int>, threshold: int): (r: Option<Alert>)
    ensures r.Some? <==> |pids| > threshold
    ensures r.Some? ==> r.value == Alert(Processes, None, |pids| as real)
    ensures |pids| == threshold ==> r == None
  {
    var count := |pids| as real;
    if Exceeds(count, threshold) then Some(Alert(Processes, None, count)) else None
  }

  // --------------------------------------------------------------- disk

  /** One entry of `disk_partitions()` together with what `disk_usage` reports for its mount point. */
  datatype Partition = Partition(mountpoint: string, used: nat, total: nat)

  /** A missing ignore list means that nothing is ignored. */
  function ResolveIgnoreList(ignoreList: Option<seq<string>>): seq<string> {
    match ignoreList
    case None => []
    case Some(keywords) => keywords
  }

  /** `any(keyword in mountpoint for keyword in keywords)`, scanning the keywords left to right. */
  function Ignored(mountpoint: string, keywords: seq<string>): (r: bool)
    ensures r <==> exists i :: 0 <= i < |keywords| && Contains(mountpoint, keywords[i])
    decreases |keywords|
  {
    if |keywords| == 0 then false
    else if Contains(mountpoint, keywords[0]) then true
    else
      var rest := Ignored(mountpoint, keywords[1..]);
      assert forall i :: 1 <= i < |keywords| ==> keywords[i] == keywords[1..][i - 1];
      rest
  }

  /**
   Every partition whose usage the tick queries has a non-zero total. Ignored
   partitions are never queried, so nothing is demanded of them.
   */
  predicate UsageKnown(parts: seq<Partition>, keywords: seq<string>) {
    forall i :: 0 <= i < |parts| && !Ignored(parts[i].mountpoint, keywords) ==> parts[i].total > 0
  }

  /** The reference rule for one partition, without division: not ignored, and `used * 100 > threshold * total`. */
  predicate RaisesAlert(p: Partition, keywords: seq<string>, threshold: int) {
    !Ignored(p.mountpoint, keywords) && p.used * 100 > threshold * p.total
  }

  /** The alert for one partition: its mount point and its usage percentage. */
  function DiskAlert(p: Partition): Alert
    requires p.total > 0
  {
    Alert(Disk, Some(p.mountpoint), Percent(p.used, p.total))
  }

  /** The body of the `for partition in partitions` loop, with a resolved keyword list. */
  function DiskScan(parts: seq<Partition>, keywords: seq<string>, threshold: int): (r: seq<Alert>)
    requires UsageKnown(parts, keywords)
    ensures |r| <= |parts|
    ensures forall a | a in r ::
      a.kind == Disk && a.mount.Some? && !Ignored(a.mount.value, keywords) && Exceeds(a.value, threshold)
    decreases |parts|
  {
    if |parts| == 0 then []
    else
      var p := parts[0];
      var here :=
        if Ignored(p.mountpoint, keywords) then []
        else if Exceeds(Percent(p.used, p.total), threshold) then [DiskAlert(p)]
        else [];
      assert UsageKnown(parts[1..], keywords) by {
        assert forall i :: 0 <= i < |parts| - 1 ==> parts[1..][i] == parts[i + 1];
      }
      here + DiskScan(parts[1..], keywords, threshold)
  }

  /**
   The disk tick: an absent ignore list is replaced by the empty one, then the
   partitions are scanned. A mount point is alerted iff some partition carrying
   it satisfies the reference rule, and the alerted mount points keep
   enumeration order.
   */
  function DiskTick(parts: seq<Partition>, ignoreList: Option<seq<string>>, threshold: int): (r: seq<Alert>)
    requires UsageKnown(parts, ResolveIgnoreList(ignoreList))
    ensures forall m :: m in Mounts(r) <==>
      exists i :: 0 <= i < |parts| && parts[i].mountpoint == m && RaisesAlert(parts[i], ResolveIgnoreList(ignoreList), threshold)
    ensures IsSubsequence(Mounts(r), Mountpoints(parts))
  {
    var keywords := ResolveIgnoreList(ignoreList);
    DiskAlertIffAll(parts, keywords, threshold);
    DiskAlertsFollowPartitionOrder(parts, keywords, threshold);
    DiskScan(parts, keywords, threshold)
  }

  // ------------------------------------------------ views on the disk tick

  /** The mount points of the partitions, in enumeration order. */
  function Mountpoints(parts: seq<Partition>): (r: seq<string>)
    ensures |r| == |parts|
    ensures forall i :: 0 <= i < |parts| ==> r[i] == parts[i].mountpoint
  {
    seq(|parts|, i requires 0 <= i < |parts| => parts[i].mountpoint)
  }

  /** The mount points named by the alerts, in the order the alerts were raised. */
  function Mounts(alerts: seq<Alert>): seq<string> {
    if |alerts| == 0 then []
    else
      (match alerts[0].mount case Some(m) => [m] case None => []) + Mounts(alerts[1..])
  }

  /** `a` can be obtained from `b` by deleting elements, keeping the order of the rest. */
  predicate IsSubsequence<T(==)>(a: seq<T>, b: seq<T>)
    decreases |b|
  {
    if |a| == 0 then true
    else if |b| == 0 then false
    else (a[0] == b[0] && IsSubsequence(a[1..], b[1..])) || IsSubsequence(a, b[1..])
  }

  lemma {:induction false} MountsAppend(a: seq<Alert>, b: seq<Alert>)
    ensures Mounts(a + b) == Mounts(a) + Mounts(b)
    decreases |a|
  {
    if |a| == 0 {
      assert a + b == b;
    } else {
      assert (a + b)[1..] == a[1..] + b;
      MountsAppend(a[1..], b);
    }
  }

  // --------------------------------------------- properties of the disk tick

  /** A single partition alerts, once and with its own mount point, iff it satisfies the reference rule. */
  lemma DiskScanSingle(p: Partition, keywords: seq<string>, threshold: int)
    requires UsageKnown([p], keywords)
    ensures RaisesAlert(p, keywords, threshold) ==> p.total > 0 && DiskScan([p], keywords, threshold) == [DiskAlert(p)]
    ensures !RaisesAlert(p, keywords, threshold) ==> DiskScan([p], keywords, threshold) == []
  {
  }

  /** Both halves of a concatenation whose queried partitions have usage figures have them too. */
  lemma UsageKnownAppend(a: seq<Partition>, b: seq<Partition>, keywords: seq<string>)
    requires UsageKnown(a + b, keywords)
    ensures UsageKnown(a, keywords) && UsageKnown(b, keywords)
  {
    assert forall i :: 0 <= i < |a| ==> a[i] == (a + b)[i];
    assert forall i :: 0 <= i < |b| ==> b[i] == (a + b)[|a| + i];
  }

  /** The scan distributes over concatenation: partitions are handled one at a time, in order. */
  lemma {:induction false} DiskScanAppend(a: seq<Partition>, b: seq<Partition>, keywords: seq<string>, threshold: int)
    requires UsageKnown(a + b, keywords)
    ensures UsageKnown(a, keywords) && UsageKnown(b, keywords)
    ensures DiskScan(a + b, keywords, threshold) == DiskScan(a, keywords, threshold) + DiskScan(b, keywords, threshold)
    decreases |a|
  {
    UsageKnownAppend(a, b, keywords);
    if |a| == 0 {
      assert a + b == b;
    } else {
      var ab := a + b;
      assert ab[1..] == a[1..] + b;
      assert ab[0] == a[0];
      UsageKnownAppend([a[0]], a[1..] + b, keywords) by {
        assert ab == [a[0]] + (a[1..] + b);
      }
      DiskScanAppend(a[1..], b, keywords, threshold);
    }
  }

  /**
   The alerted mount points form a subsequence of the enumerated mount points:
   alerts follow enumeration order, each names its own partition, and no
   partition alerts twice.
   */
  lemma {:induction false} DiskAlertsFollowPartitionOrder(parts: seq<Partition>, keywords: seq<string>, threshold: int)
    requires UsageKnown(parts, keywords)
    ensures IsSubsequence(Mounts(DiskScan(parts, keywords, threshold)), Mountpoints(parts))
    decreases |parts|
  {
    if |parts| > 0 {
      var p := parts[0];
      assert parts == [p] + parts[1..];
      DiskScanAppend([p], parts[1..], keywords, threshold);
      DiskScanSingle(p, keywords, threshold);
      DiskAlertsFollowPartitionOrder(parts[1..], keywords, threshold);
      var head := DiskScan([p], keywords, threshold);
      var tail := DiskScan(parts[1..], keywords, threshold);
      MountsAppend(head, tail);
      assert Mountpoints(parts)[1..] == Mountpoints(parts[1..]);
      if RaisesAlert(p, keywords, threshold) {
        assert Mounts(head) == [p.mountpoint];
        assert Mounts(head + tail)[1..] == Mounts(tail);
      } else {
        assert Mounts(head) == [];
        assert Mounts(head + tail) == Mounts(tail);
      }
    }
  }

  /** A mount point is alerted iff some partition carrying it satisfies the reference rule. */
  lemma {:induction false} DiskAlertIff(parts: seq<Partition>, keywords: seq<string>, threshold: int, m: string)
    requires UsageKnown(parts, keywords)
    ensures m in Mounts(DiskScan(parts, keywords, threshold)) <==>
      exists i :: 0 <= i < |parts| && parts[i].mountpoint == m && RaisesAlert(parts[i], keywords, threshold)
    decreases |parts|
  {
    if |parts| > 0 {
      var p := parts[0];
      assert parts == [p] + parts[1..];
      DiskScanAppend([p], parts[1..], keywords, threshold);
      DiskScanSingle(p, keywords, threshold);
      DiskAlertIff(parts[1..], keywords, threshold, m);
      var head := DiskScan([p], keywords, threshold);
      var tail := DiskScan(parts[1..], keywords, threshold);
      MountsAppend(head, tail);
      assert forall i :: 1 <= i < |parts| ==> parts[i] == parts[1..][i - 1];
      if RaisesAlert(p, keywords, threshold) {
        assert Mounts(head) == [p.mountpoint];
      } else {
        assert Mounts(head) == [];
      }
    }
  }

  lemma DiskAlertIffAll(parts: seq<Partition>, keywords: seq<string>, threshold: int)
    requires UsageKnown(parts, keywords)
    ensures forall m :: m in Mounts(DiskScan(parts, keywords, threshold)) <==>
      exists i :: 0 <= i < |parts| && parts[i].mountpoint == m && RaisesAlert(parts[i], keywords, threshold)
  {
    forall m {
      DiskAlertIff(parts, keywords, threshold, m);
    }
  }

  /**
   A partition whose mount point contains an ignore keyword never alerts, and
   its usage figures do not matter at all: replacing them (even by a zero
   total) leaves the tick's alerts unchanged, because they are never queried.
   */
  lemma IgnoredPartitionNeverAlerts(parts: seq<Partition>, keywords: seq<string>, threshold: int, i: int, used: nat, total: nat)
    requires UsageKnown(parts, keywords)
    requires 0 <= i < |parts| && Ignored(parts[i].mountpoint, keywords)
    ensures UsageKnown(parts[i := Partition(parts[i].mountpoint, used, total)], keywords)
    ensures DiskScan(parts[i := Partition(parts[i].mountpoint, used, total)], keywords, threshold)
         == DiskScan(parts, keywords, threshold)
    ensures parts[i].mountpoint !in Mounts(DiskScan(parts, keywords, threshold))
  {
    var p := parts[i];
    var q := Partition(p.mountpoint, used, total);
    var parts' := parts[i := q];
    var pre, post := parts[..i], parts[i + 1..];
    assert parts == pre + [p] + post;
    assert parts' == pre + [q] + post;
    assert UsageKnown(parts', keywords) by {
      assert forall j :: 0 <= j < |parts| && j != i ==> parts'[j] == parts[j];
    }
    DiskScanAppend(pre + [p], post, keywords, threshold);
    DiskScanAppend(pre, [p], keywords, threshold);
    DiskScanAppend(pre + [q], post, keywords, threshold);
    DiskScanAppend(pre, [q], keywords, threshold);
    DiskScanSingle(p, keywords, threshold);
    DiskScanSingle(q, keywords, threshold);
    DiskAlertIff(parts, keywords, threshold, p.mountpoint);
  }

  /** An empty keyword is contained in every mount point, so it switches the disk tick off entirely. */
  lemma EmptyKeywordIgnoresEverything(parts: seq<Partition>, keywords: seq<string>, threshold: int)
    requires UsageKnown(parts, keywords)
    requires "" in keywords
    ensures DiskScan(parts, keywords, threshold) == []
  {
  }

  /**
   With no ignore list, or an empty one, no mount point is skipped: every
   partition's usage is queried, and a mount point alerts iff some partition
   carrying it has `used * 100 > threshold * total`.
   */
  lemma NoIgnoreListEvaluatesAll(parts: seq<Partition>, ignoreList: Option<seq<string>>, threshold: int)
    requires ignoreList == None || ignoreList == Some([])
    ensures forall m :: !Ignored(m, ResolveIgnoreList(ignoreList))
    ensures UsageKnown(parts, ResolveIgnoreList(ignoreList)) <==> forall i :: 0 <= i < |parts| ==> parts[i].total > 0
    ensures UsageKnown(parts, ResolveIgnoreList(ignoreList)) ==>
      forall m :: m in Mounts(DiskTick(parts, ignoreList, threshold)) <==>
        exists i :: 0 <= i < |parts| && parts[i].mountpoint == m && parts[i].used * 100 > threshold * parts[i].total
    ensures UsageKnown(parts, []) ==> DiskTick(parts, ignoreList, threshold) == DiskTick(parts, None, threshold)
  {
  }

  /** Raising the threshold never adds a disk alert. */
  lemma DiskThresholdMonotone(parts: seq<Partition>, keywords: seq<string>, low: int, high: int, m: string)
    requires UsageKnown(parts, keywords)
    requires low <= high
    ensures m in Mounts(DiskScan(parts, keywords, high)) ==> m in Mounts(DiskScan(parts, keywords, low))
  {
    DiskAlertIff(parts, keywords, high, m);
    DiskAlertIff(parts, keywords, low, m);
    if m in Mounts(DiskScan(parts, keywords, high)) {
      var i :| 0 <= i < |parts| && parts[i].mountpoint == m && RaisesAlert(parts[i], keywords, high);
      MulMonotone(low, high, parts[i].total);
      assert RaisesAlert(parts[i], keywords, low);
    }
  }

  lemma MulMonotone(low: int, high: int, n: nat)
    requires low <= high
    ensures low * n <= high * n
  {
  }
}
