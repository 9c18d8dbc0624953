/**
 * `SystemMonitor`: two snapshots of the host's `/proc` counters, one when
 * the monitor is created and one when it is stopped, and the metrics derived
 * from their difference. The wall clock and the three files' text are
 * inputs, gathered in a `Reading` ("" for a file that cannot be read).
 */
module Monitor {
  import opened Base
  import opened Text
  import opened ProcParsers

  /** The dictionary `_capture_stats` returns. */
  datatype Snapshot = Snapshot(
    time: real,
    cpuTotal: int,
    cpuIdle: int,
    diskReadBytes: int,
    diskWriteBytes: int,
    memTotalKb: int,
    memUsedKb: int)

  /** What one capture reads: `time.time()` and the text of the three files. */
  datatype Reading = Reading(now: real, stat: string, diskstats: string, meminfo: string)

  /** The dictionary `get_metrics` returns, before rounding to two places. */
  datatype Metrics = Metrics(cpuLoadPercent: real, memoryUsedGb: real, diskReadMbS: real, diskWriteMbS: real)

  /**
   * `_capture_stats`: the cpu, disk and memory readers in that order; the
   * first one that raises decides the error.
   */
  function Capture(raw: Reading): Result<Snapshot> {
    match CpuTimes(Lines(raw.stat))
    case Err(e) => Err(e)
    case Ok(cpu) =>
      match DiskIo(Lines(raw.diskstats))
      case Err(e) => Err(e)
      case Ok(disk) =>
        match MemInfo(Lines(raw.meminfo))
        case Err(e) => Err(e)
        case Ok(mem) => Ok(Snapshot(raw.now, cpu.0, cpu.1, disk.0, disk.1, mem.0, mem.1))
  }

  method CaptureStats(raw: Reading) returns (r: Result<Snapshot>)
    ensures r == Capture(raw)
  {
    var cpu := GetCpuTimes(raw.stat);
    if cpu.Err? {
      return Err(cpu.error);
    }
    var disk := GetDiskIo(raw.diskstats);
    if disk.Err? {
      return Err(disk.error);
    }
    var mem := GetMemInfo(raw.meminfo);
    if mem.Err? {
      return Err(mem.error);
    }
    r := Ok(Snapshot(raw.now, cpu.value.0, cpu.value.1, disk.value.0, disk.value.1, mem.value.0, mem.value.1));
  }

  /** A capture succeeds exactly when all three readers do, and an error is the first reader's. */
  lemma CaptureErrors(raw: Reading)
    ensures Capture(raw).Ok? <==>
      CpuTimes(Lines(raw.stat)).Ok? && DiskIo(Lines(raw.diskstats)).Ok? && MemInfo(Lines(raw.meminfo)).Ok?
    ensures CpuTimes(Lines(raw.stat)).Err? ==> Capture(raw) == Err(CpuTimes(Lines(raw.stat)).error)
    ensures CpuTimes(Lines(raw.stat)).Ok? && DiskIo(Lines(raw.diskstats)).Err? ==>
      Capture(raw) == Err(DiskIo(Lines(raw.diskstats)).error)
  {
  }

  /** With none of the files readable, a capture is all zeros at the current time. */
  lemma CaptureUnreadable(now: real)
    ensures Capture(Reading(now, "", "", "")) == Ok(Snapshot(now, 0, 0, 0, 0, 0, 0))
  {
    UnreadableFilesReadZero();
  }

  /** A successful capture's idle time never exceeds its total when the aggregate line holds unsigned counters. */
  lemma CaptureIdleWithinTotal(raw: Reading, k: nat)
    requires k < |Lines(raw.stat)| && StartsWith(Lines(raw.stat)[k], "cpu ")
    requires forall j :: 0 <= j < k ==> !StartsWith(Lines(raw.stat)[j], "cpu ")
    requires forall j :: 0 <= j < |Tail(Tokens(Lines(raw.stat)[k]))| ==> AllDigits(Tail(Tokens(Lines(raw.stat)[k]))[j])
    requires Capture(raw).Ok?
    ensures 0 <= Capture(raw).value.cpuIdle <= Capture(raw).value.cpuTotal
  {
    CpuTimesFirstMatch(Lines(raw.stat), k);
    CpuIdleWithinTotal(Lines(raw.stat)[k]);
  }

  // ---------------------------------------------------------------------------
  // get_metrics
  // ---------------------------------------------------------------------------

  /** The elapsed time, with a non-positive one replaced by one second. */
  function EffectiveDuration(start: Snapshot, end: Snapshot): (d: real)
    ensures d > 0.0
    ensures end.time - start.time > 0.0 ==> d == end.time - start.time
    ensures end.time - start.time <= 0.0 ==> d == 1.0
  {
    var duration := end.time - start.time;
    if duration <= 0.0 then 1.0 else duration
  }

  /** The busy share of the cpu time between the snapshots, in percent; 0 when no time passed. */
  function CpuLoadPercent(start: Snapshot, end: Snapshot): real {
    var deltaTotal := end.cpuTotal - start.cpuTotal;
    var deltaIdle := end.cpuIdle - start.cpuIdle;
    if deltaTotal > 0 then 100.0 * (1.0 - deltaIdle as real / deltaTotal as real) else 0.0
  }

  const MiB: real := 1048576.0

  /** A byte count over a duration, in MiB per second. */
  function Rate(bytes: int, duration: real): real
    requires duration > 0.0
  {
    bytes as real / duration / MiB
  }

  function MetricsOf(start: Snapshot, end: Snapshot): Metrics {
    var duration := EffectiveDuration(start, end);
    Metrics(
      CpuLoadPercent(start, end),
      end.memUsedKb as real / MiB,
      Rate(end.diskReadBytes - start.diskReadBytes, duration),
      Rate(end.diskWriteBytes - start.diskWriteBytes, duration))
  }

  /** When the idle delta lies within the total delta, the load is a percentage. */
  lemma CpuLoadBounds(start: Snapshot, end: Snapshot)
    requires 0 <= end.cpuIdle - start.cpuIdle <= end.cpuTotal - start.cpuTotal
    ensures 0.0 <= CpuLoadPercent(start, end) <= 100.0
  {
    var deltaTotal := end.cpuTotal - start.cpuTotal;
    var deltaIdle := end.cpuIdle - start.cpuIdle;
    if deltaTotal > 0 {
      var share := deltaIdle as real / deltaTotal as real;
      assert share * deltaTotal as real == deltaIdle as real;
      assert 0.0 <= share <= 1.0;
    }
  }

  /** An idle interval is 0% load, a fully busy one 100%, and no elapsed cpu time 0%. */
  lemma CpuLoadExtremes(start: Snapshot, end: Snapshot)
    ensures end.cpuTotal - start.cpuTotal <= 0 ==> CpuLoadPercent(start, end) == 0.0
    ensures end.cpuTotal - start.cpuTotal > 0 && end.cpuIdle - start.cpuIdle == end.cpuTotal - start.cpuTotal ==>
      CpuLoadPercent(start, end) == 0.0
    ensures end.cpuTotal - start.cpuTotal > 0 && end.cpuIdle == start.cpuIdle ==>
      CpuLoadPercent(start, end) == 100.0
  {
  }

  /** Counters that did not go down give non-negative throughputs; memory is the end snapshot's alone. */
  lemma RatesNonNegative(start: Snapshot, end: Snapshot)
    requires start.diskReadBytes <= end.diskReadBytes && start.diskWriteBytes <= end.diskWriteBytes
    ensures MetricsOf(start, end).diskReadMbS >= 0.0 && MetricsOf(start, end).diskWriteMbS >= 0.0
  {
    var d := EffectiveDuration(start, end);
    RateNonNegative(end.diskReadBytes - start.diskReadBytes, d);
    RateNonNegative(end.diskWriteBytes - start.diskWriteBytes, d);
  }

  lemma RateNonNegative(bytes: int, duration: real)
    requires bytes >= 0 && duration > 0.0
    ensures Rate(bytes, duration) >= 0.0
  {
    var perSecond := bytes as real / duration;
    assert perSecond * duration == bytes as real;
    assert perSecond >= 0.0;
  }

  /** Reading one MiB per second for `seconds` seconds reports a rate of 1. */
  lemma RateOfSteadyStream(seconds: nat)
    requires seconds > 0
    ensures Rate(seconds * 1048576, seconds as real) == 1.0
  {
    var time := seconds as real;
    var bytes := (seconds * 1048576) as real;
    assert bytes == time * MiB;
    assert (bytes / time) * time == time * MiB;
    assert bytes / time == MiB;
  }

  /**
   * With a clock that stood still or went back, the rates are the byte
   * deltas over one second.
   */
  lemma StalledClockRates(start: Snapshot, end: Snapshot)
    requires end.time <= start.time
    ensures MetricsOf(start, end).diskReadMbS == (end.diskReadBytes - start.diskReadBytes) as real / MiB
    ensures MetricsOf(start, end).diskWriteMbS == (end.diskWriteBytes - start.diskWriteBytes) as real / MiB
  {
  }

  // ---------------------------------------------------------------------------
  // The monitor object
  // ---------------------------------------------------------------------------

  class SystemMonitor {
    var startStats: Snapshot
    var endStats: Option<Snapshot>

    constructor (first: Snapshot)
      ensures startStats == first && endStats == None
    {
      startStats := first;
      endStats := None;
    }

    /** `SystemMonitor()`: the first capture happens on creation, and its error is the constructor's. */
    static method Open(raw: Reading) returns (r: Result<SystemMonitor>)
      ensures r.Err? <==> Capture(raw).Err?
      ensures r.Err? ==> r.error == Capture(raw).error
      ensures r.Ok? ==> fresh(r.value) && r.value.startStats == Capture(raw).value && r.value.endStats == None
    {
      var first := CaptureStats(raw);
      if first.Err? {
        return Err(first.error);
      }
      var m := new SystemMonitor(first.value);
      r := Ok(m);
    }

    /** `stop`: a new end snapshot; a failed capture leaves the old one in place. */
    method Stop(raw: Reading) returns (r: Result<Snapshot>)
      modifies this
      ensures r == Capture(raw)
      ensures startStats == old(startStats)
      ensures r.Ok? ==> endStats == Some(r.value)
      ensures r.Err? ==> endStats == old(endStats)
    {
      r := CaptureStats(raw);
      if r.Ok? {
        endStats := Some(r.value);
      }
    }

    /**
     * `get_metrics`: captures the end snapshot only when `stop` has not
     * succeeded yet, so repeated calls report the same metrics.
     */
    method GetMetrics(raw: Reading) returns (r: Result<Metrics>)
      modifies this
      ensures startStats == old(startStats)
      ensures old(endStats).Some? ==> endStats == old(endStats) && r == Ok(MetricsOf(startStats, endStats.value))
      ensures old(endStats).None? && Capture(raw).Ok? ==>
        endStats == Some(Capture(raw).value) && r == Ok(MetricsOf(startStats, Capture(raw).value))
      ensures old(endStats).None? && Capture(raw).Err? ==> endStats == None && r == Err(Capture(raw).error)
      ensures r.Ok? ==> endStats.Some? && r.value == MetricsOf(startStats, endStats.value)
    {
      if endStats.None? {
        var s := Stop(raw);
        if s.Err? {
          return Err(s.error);
        }
      }
      r := Ok(MetricsOf(startStats, endStats.value));
    }
  }
}
