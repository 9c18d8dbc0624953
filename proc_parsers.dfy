/**
 * The three `/proc` readers of `SystemMonitor`, shared by both clients,
 * over the file's text ("" when it cannot be read). A malformed number or a
 * missing field raises in Python; here it is an `Err` carrying the Python
 * exception's kind.
 */
module ProcParsers {
  import opened Base
  import opened Text
  import opened Config

  /** `[int(x) for x in ts]`: every token's value, or the ValueError of the first bad one. */
  function ParseAll(ts: seq<string>): (r: Result<seq<int>>)
    ensures r.Ok? <==> forall k :: 0 <= k < |ts| ==> ParseInt(ts[k]).Some?
    ensures r.Ok? ==> |r.value| == |ts| && forall k :: 0 <= k < |ts| ==> ParseInt(ts[k]) == Some(r.value[k])
    ensures r.Err? ==> r.error == ValueError
  {
    if ts == [] then Ok([])
    else
      match ParseInt(ts[0])
      case None => Err(ValueError)
      case Some(v) =>
        match ParseAll(ts[1..])
        case Err(e) => Err(e)
        case Ok(vs) => Ok([v] + vs)
  }

  function Sum(vs: seq<int>): int {
    if vs == [] then 0 else vs[0] + Sum(vs[1..])
  }

  /** Python's `parts[1:]`: empty when there is no second element. */
  function Tail(parts: seq<string>): seq<string> {
    if parts == [] then [] else parts[1..]
  }

  // ---------------------------------------------------------------------------
  // /proc/stat
  // ---------------------------------------------------------------------------

  /** The aggregate `cpu ` line: the sum of its values and its fourth value (idle). */
  function CpuLine(line: string): Result<(int, int)> {
    match ParseAll(Tail(Tokens(line)))
    case Err(e) => Err(e)
    case Ok(vs) => if |vs| < 4 then Err(IndexError) else Ok((Sum(vs), vs[3]))
  }

  /** `_get_cpu_times`: the first line starting with "cpu " decides; (0, 0) when none does. */
  function CpuTimes(lines: seq<string>): Result<(int, int)> {
    if lines == [] then Ok((0, 0))
    else if StartsWith(lines[0], "cpu ") then CpuLine(lines[0])
    else CpuTimes(lines[1..])
  }

  method GetCpuTimes(content: string) returns (r: Result<(int, int)>)
    ensures r == CpuTimes(Lines(content))
  {
    var lines := Lines(content);
    var i := 0;
    while i < |lines|
      invariant 0 <= i <= |lines|
      invariant CpuTimes(lines) == CpuTimes(lines[i..])
    {
      assert lines[i..][1..] == lines[i + 1..];
      if StartsWith(lines[i], "cpu ") {
        r := CpuLine(lines[i]);
        return;
      }
      i := i + 1;
    }
    r := Ok((0, 0));
  }

  /** The first line starting with "cpu " is the one read; lines before it are ignored. */
  lemma {:induction false} CpuTimesFirstMatch(lines: seq<string>, k: nat)
    requires k < |lines| && StartsWith(lines[k], "cpu ")
    requires forall j :: 0 <= j < k ==> !StartsWith(lines[j], "cpu ")
    ensures CpuTimes(lines) == CpuLine(lines[k])
  {
    if k > 0 {
      assert !StartsWith(lines[0], "cpu ");
      CpuTimesFirstMatch(lines[1..], k - 1);
    }
  }

  /** Without an aggregate line the CPU counters read as zero. */
  lemma {:induction false} CpuTimesNoMatch(lines: seq<string>)
    requires forall j :: 0 <= j < |lines| ==> !StartsWith(lines[j], "cpu ")
    ensures CpuTimes(lines) == Ok((0, 0))
  {
    if lines != [] {
      assert !StartsWith(lines[0], "cpu ");
      CpuTimesNoMatch(lines[1..]);
    }
  }

  lemma {:induction false} SumBounds(vs: seq<int>, k: nat)
    requires forall j :: 0 <= j < |vs| ==> vs[j] >= 0
    requires k < |vs|
    ensures 0 <= vs[k] <= Sum(vs)
  {
    if k > 0 {
      SumBounds(vs[1..], k - 1);
    } else if |vs| > 1 {
      SumNonNegative(vs[1..]);
    }
  }

  lemma {:induction false} SumNonNegative(vs: seq<int>)
    requires forall j :: 0 <= j < |vs| ==> vs[j] >= 0
    ensures Sum(vs) >= 0
  {
    if vs != [] { SumNonNegative(vs[1..]); }
  }

  /** When every counter on the line is unsigned, the idle time is at most the total. */
  lemma CpuIdleWithinTotal(line: string)
    requires CpuLine(line).Ok?
    requires forall k :: 0 <= k < |Tail(Tokens(line))| ==> AllDigits(Tail(Tokens(line))[k])
    ensures 0 <= CpuLine(line).value.1 <= CpuLine(line).value.0
  {
    var ts := Tail(Tokens(line));
    var vs := ParseAll(ts).value;
    forall j | 0 <= j < |vs| ensures vs[j] >= 0 {
      assert ParseInt(ts[j]) == Some(vs[j]);
      assert ts[j] != [] && AllDigits(ts[j]);
    }
    SumBounds(vs, 3);
  }

  // ---------------------------------------------------------------------------
  // /proc/diskstats
  // ---------------------------------------------------------------------------

  /** `any(x in dev_name for x in ['nvme', 'sd', 'vd', 'xvd'])`. */
  predicate IsStorageDevice(dev: string) {
    Contains(dev, "nvme") || Contains(dev, "sd") || Contains(dev, "vd") || Contains(dev, "xvd")
  }

  /** Whether `_get_disk_io` reads a line: at least 14 fields and a storage device name. */
  predicate CountedLine(line: string) {
    |Tokens(line)| >= 14 && IsStorageDevice(Tokens(line)[2])
  }

  /** One line's sectors read and written (fields 6 and 10); (0, 0) for a line that is skipped. */
  function DiskLine(line: string): Result<(int, int)> {
    var parts := Tokens(line);
    if !CountedLine(line) then Ok((0, 0))
    else
      match ParseInt(parts[5])
      case None => Err(ValueError)
      case Some(r) =>
        match ParseInt(parts[9])
        case None => Err(ValueError)
        case Some(w) => Ok((r, w))
  }

  /** Adds the sector counts of two results; the first error wins. */
  function AddCounts(a: Result<(int, int)>, b: Result<(int, int)>): Result<(int, int)> {
    match a
    case Err(e) => Err(e)
    case Ok(x) =>
      match b
      case Err(e) => Err(e)
      case Ok(y) => Ok((x.0 + y.0, x.1 + y.1))
  }

  /** The per-line results of a scan, in line order. */
  function LineCounts(lines: seq<string>): (rs: seq<Result<(int, int)>>)
    ensures |rs| == |lines| && forall k :: 0 <= k < |lines| ==> rs[k] == DiskLine(lines[k])
  {
    seq(|lines|, k requires 0 <= k < |lines| => DiskLine(lines[k]))
  }

  /** The per-line results added up left to right; the first error wins. */
  function Total(rs: seq<Result<(int, int)>>): Result<(int, int)> {
    if rs == [] then Ok((0, 0)) else AddCounts(Total(rs[..|rs| - 1]), rs[|rs| - 1])
  }

  /** The sectors read and written summed over the lines. */
  function DiskSectors(lines: seq<string>): Result<(int, int)> {
    Total(LineCounts(lines))
  }

  /** `_get_disk_io`: the summed sectors times the 512-byte sector size. */
  function DiskIo(lines: seq<string>): Result<(int, int)> {
    match DiskSectors(lines)
    case Err(e) => Err(e)
    case Ok(s) => Ok((s.0 * SectorBytes, s.1 * SectorBytes))
  }

  /** The body of the `_get_disk_io` loop for one line. */
  method ReadDiskLine(line: string) returns (r: Result<(int, int)>)
    ensures !CountedLine(line) ==> r == Ok((0, 0))
    ensures CountedLine(line) ==>
      (r.Ok? <==> ParseInt(Tokens(line)[5]).Some? && ParseInt(Tokens(line)[9]).Some?)
    ensures CountedLine(line) && r.Ok? ==>
      r.value == (ParseInt(Tokens(line)[5]).value, ParseInt(Tokens(line)[9]).value)
    ensures r.Err? ==> r.error == ValueError
    ensures r == DiskLine(line)
  {
    var parts := Tokens(line);
    if |parts| < 14 {
      return Ok((0, 0));
    }
    var devName := parts[2];
    if !IsStorageDevice(devName) {
      return Ok((0, 0));
    }
    var readSectors := ParseInt(parts[5]);
    if readSectors.None? {
      return Err(ValueError);
    }
    var writeSectors := ParseInt(parts[9]);
    if writeSectors.None? {
      return Err(ValueError);
    }
    r := Ok((readSectors.value, writeSectors.value));
  }

  method GetDiskIo(content: string) returns (r: Result<(int, int)>)
    ensures r == DiskIo(Lines(content))
  {
    var lines := Lines(content);
    var readSectors := 0;
    var writeSectors := 0;
    var i := 0;
    while i < |lines|
      invariant 0 <= i <= |lines|
      invariant DiskSectors(lines[..i]) == Ok((readSectors, writeSectors))
    {
      var counted := ReadDiskLine(lines[i]);
      if counted.Err? {
        DiskScanFails(lines, i, readSectors, writeSectors);
        return Err(counted.error);
      }
      DiskScanStep(lines, i, readSectors, writeSectors);
      readSectors := readSectors + counted.value.0;
      writeSectors := writeSectors + counted.value.1;
      i := i + 1;
    }
    DiskScanDone(lines, i, readSectors, writeSectors);
    r := Ok((readSectors * SectorBytes, writeSectors * SectorBytes));
  }

  /** A line that parses adds its counts to the running sums. */
  lemma DiskScanStep(lines: seq<string>, i: nat, readSectors: int, writeSectors: int)
    requires i < |lines| && DiskSectors(lines[..i]) == Ok((readSectors, writeSectors)) && DiskLine(lines[i]).Ok?
    ensures DiskSectors(lines[..i + 1]) ==
      Ok((readSectors + DiskLine(lines[i]).value.0, writeSectors + DiskLine(lines[i]).value.1))
  {
    DiskSectorsStep(lines, i);
  }

  /** A line that does not parse is the reader's error. */
  lemma DiskScanFails(lines: seq<string>, i: nat, readSectors: int, writeSectors: int)
    requires i < |lines| && DiskSectors(lines[..i]) == Ok((readSectors, writeSectors)) && DiskLine(lines[i]).Err?
    ensures DiskIo(lines) == Err(DiskLine(lines[i]).error)
  {
    DiskSectorsError(lines, i);
  }

  /** After the last line the running sums, in bytes, are the reader's result. */
  lemma DiskScanDone(lines: seq<string>, i: nat, readSectors: int, writeSectors: int)
    requires i == |lines| && DiskSectors(lines[..i]) == Ok((readSectors, writeSectors))
    ensures DiskIo(lines) == Ok((readSectors * SectorBytes, writeSectors * SectorBytes))
  {
    assert lines[..i] == lines;
  }

  /** The scan of one more line adds that line's counts. */
  lemma DiskSectorsStep(lines: seq<string>, i: nat)
    requires i < |lines|
    ensures DiskSectors(lines[..i + 1]) == AddCounts(DiskSectors(lines[..i]), DiskLine(lines[i]))
  {
    var rs := LineCounts(lines[..i + 1]);
    assert rs[..i] == LineCounts(lines[..i]);
  }

  /** A line that fails to parse makes the whole scan fail with its error. */
  lemma DiskSectorsError(lines: seq<string>, i: nat)
    requires i < |lines| && DiskSectors(lines[..i]).Ok? && DiskLine(lines[i]).Err?
    ensures DiskSectors(lines) == DiskLine(lines[i])
  {
    var rs := LineCounts(lines);
    assert rs[..i] == LineCounts(lines[..i]);
    TotalError(rs, i);
  }

  /** A line that fails to parse makes the whole scan fail, whatever follows it. */
  lemma {:induction false} TotalError(rs: seq<Result<(int, int)>>, i: nat)
    requires i < |rs| && Total(rs[..i]).Ok? && rs[i].Err?
    ensures Total(rs) == rs[i]
    decreases |rs|
  {
    var init := rs[..|rs| - 1];
    if |rs| - 1 == i {
      assert init == rs[..i];
    } else {
      assert init[..i] == rs[..i];
      TotalError(init, i);
    }
  }

  /** The totals of two stretches of lines add up. */
  lemma {:induction false} TotalAppend(a: seq<Result<(int, int)>>, b: seq<Result<(int, int)>>)
    ensures Total(a + b) == AddCounts(Total(a), Total(b))
    decreases |b|
  {
    if b == [] {
      assert a + b == a;
      match Total(a) {
        case Err(_) =>
        case Ok(x) => assert x == (x.0 + 0, x.1 + 0);
      }
    } else {
      var init := b[..|b| - 1];
      assert (a + b)[..|a + b| - 1] == a + init;
      assert (a + b)[|a + b| - 1] == b[|b| - 1];
      TotalAppend(a, init);
      match Total(a) {
        case Err(_) =>
        case Ok(x) =>
          match Total(init) {
            case Err(_) =>
            case Ok(y) =>
              match b[|b| - 1] {
                case Err(_) =>
                case Ok(z) => assert x.0 + y.0 + z.0 == x.0 + (y.0 + z.0);
              }
          }
      }
    }
  }

  /** The disk counts of two stretches of lines add up. */
  lemma DiskSectorsAppend(a: seq<string>, b: seq<string>)
    ensures DiskSectors(a + b) == AddCounts(DiskSectors(a), DiskSectors(b))
  {
    assert LineCounts(a + b) == LineCounts(a) + LineCounts(b);
    TotalAppend(LineCounts(a), LineCounts(b));
  }

  /** A line with fewer than 14 fields, or of another device, changes nothing. */
  lemma DiskSkipsUncounted(a: seq<string>, line: string, b: seq<string>)
    requires !CountedLine(line)
    ensures DiskSectors(a + [line] + b) == DiskSectors(a + b)
  {
    DiskSectorsAppend(a + [line], b);
    DiskSectorsAppend(a, [line]);
    DiskSectorsAppend(a, b);
    assert LineCounts([line]) == [Ok((0, 0))];
    assert [Ok((0, 0))][..0] == [];
    match DiskSectors(a) {
      case Err(_) =>
      case Ok(x) => assert x == (x.0 + 0, x.1 + 0);
    }
  }

  // ---------------------------------------------------------------------------
  // /proc/meminfo
  // ---------------------------------------------------------------------------

  /** `int(line.split()[1])`: the line's second field. */
  function SecondField(line: string): Result<int> {
    var ts := Tokens(line);
    if |ts| < 2 then Err(IndexError)
    else
      match ParseInt(ts[1])
      case None => Err(ValueError)
      case Some(v) => Ok(v)
  }

  /** One line's update of (MemTotal, MemAvailable): each key found in the line overwrites its value. */
  function MemLine(state: (int, int), line: string): Result<(int, int)> {
    var total := if Contains(line, "MemTotal") then SecondField(line) else Ok(state.0);
    match total
    case Err(e) => Err(e)
    case Ok(t) =>
      if Contains(line, "MemAvailable") then
        match SecondField(line)
        case Err(e) => Err(e)
        case Ok(a) => Ok((t, a))
      else Ok((t, state.1))
  }

  /** (MemTotal, MemAvailable) after the lines, starting from (0, 0). */
  function MemState(lines: seq<string>): Result<(int, int)> {
    if lines == [] then Ok((0, 0))
    else
      match MemState(lines[..|lines| - 1])
      case Err(e) => Err(e)
      case Ok(s) => MemLine(s, lines[|lines| - 1])
  }

  /** `_get_mem_info`: (total, total - available). */
  function MemInfo(lines: seq<string>): Result<(int, int)> {
    match MemState(lines)
    case Err(e) => Err(e)
    case Ok(s) => Ok((s.0, s.0 - s.1))
  }

  method GetMemInfo(content: string) returns (r: Result<(int, int)>)
    ensures r == MemInfo(Lines(content))
  {
    var lines := Lines(content);
    var memTotal := 0;
    var memAvail := 0;
    var i := 0;
    while i < |lines|
      invariant 0 <= i <= |lines|
      invariant MemState(lines[..i]) == Ok((memTotal, memAvail))
    {
      MemStateStep(lines, i);
      var line := lines[i];
      if Contains(line, "MemTotal") {
        var v := SecondField(line);
        if v.Err? {
          MemStateError(lines, i);
          return Err(v.error);
        }
        memTotal := v.value;
      }
      if Contains(line, "MemAvailable") {
        var v := SecondField(line);
        if v.Err? {
          MemStateError(lines, i);
          return Err(v.error);
        }
        memAvail := v.value;
      }
      i := i + 1;
    }
    assert lines[..i] == lines;
    r := Ok((memTotal, memTotal - memAvail));
  }

  lemma MemStateStep(lines: seq<string>, i: nat)
    requires i < |lines| && MemState(lines[..i]).Ok?
    ensures MemState(lines[..i + 1]) == MemLine(MemState(lines[..i]).value, lines[i])
  {
    assert lines[..i + 1][..i] == lines[..i];
  }

  lemma {:induction false} MemStateError(lines: seq<string>, i: nat)
    requires i < |lines| && MemState(lines[..i]).Ok? && MemLine(MemState(lines[..i]).value, lines[i]).Err?
    ensures MemState(lines) == Err(MemLine(MemState(lines[..i]).value, lines[i]).error)
    ensures MemInfo(lines) == Err(MemLine(MemState(lines[..i]).value, lines[i]).error)
    decreases |lines|
  {
    if |lines| - 1 == i {
      assert lines[..|lines| - 1] == lines[..i];
    } else {
      var init := lines[..|lines| - 1];
      assert init[..i] == lines[..i];
      MemStateError(init, i);
    }
  }

  /** Lines mentioning neither key leave both values as they were. */
  lemma {:induction false} MemIgnoresOtherLines(a: seq<string>, b: seq<string>)
    requires forall k :: 0 <= k < |b| ==> !Contains(b[k], "MemTotal") && !Contains(b[k], "MemAvailable")
    ensures MemState(a + b) == MemState(a)
    decreases |b|
  {
    if b != [] {
      var init := b[..|b| - 1];
      assert (a + b)[..|a + b| - 1] == a + init;
      assert (a + b)[|a + b| - 1] == b[|b| - 1];
      MemIgnoresOtherLines(a, init);
    } else {
      assert a + b == a;
    }
  }

  /** The line's second field parses wherever the parser reads it: on a line naming either key. */
  predicate KeyLineParses(line: string) {
    (Contains(line, "MemTotal") || Contains(line, "MemAvailable")) ==> SecondField(line).Ok?
  }

  lemma MemLineOk(state: (int, int), line: string)
    ensures MemLine(state, line).Ok? <==> KeyLineParses(line)
  {
  }

  /** Each key a line names takes that line's second field; a key it does not name keeps its value. */
  lemma MemLineUpdates(state: (int, int), line: string)
    requires MemLine(state, line).Ok?
    ensures Contains(line, "MemTotal") ==> SecondField(line) == Ok(MemLine(state, line).value.0)
    ensures !Contains(line, "MemTotal") ==> MemLine(state, line).value.0 == state.0
    ensures Contains(line, "MemAvailable") ==> SecondField(line) == Ok(MemLine(state, line).value.1)
    ensures !Contains(line, "MemAvailable") ==> MemLine(state, line).value.1 == state.1
  {
  }

  /** The scan succeeds exactly when every line naming a key has a second field that parses. */
  lemma {:induction false} MemStateOk(lines: seq<string>)
    ensures MemState(lines).Ok? <==> forall j :: 0 <= j < |lines| ==> KeyLineParses(lines[j])
    decreases |lines|
  {
    if lines != [] {
      var init := lines[..|lines| - 1];
      MemStateOk(init);
      assert forall j :: 0 <= j < |init| ==> init[j] == lines[j];
      if MemState(init).Ok? {
        MemLineOk(MemState(init).value, lines[|lines| - 1]);
      }
    }
  }

  /**
   * The last line naming MemTotal sets the total, whatever the lines after
   * it say about MemAvailable.
   */
  lemma {:induction false} MemLastTotalWins(lines: seq<string>, k: nat, t: int)
    requires k < |lines| && Contains(lines[k], "MemTotal") && SecondField(lines[k]) == Ok(t)
    requires forall j :: k < j < |lines| ==> !Contains(lines[j], "MemTotal")
    ensures MemState(lines).Ok? ==> MemState(lines).value.0 == t
    decreases |lines|
  {
    var init := lines[..|lines| - 1];
    if MemState(lines).Ok? {
      assert MemState(init).Ok?;
      MemLineUpdates(MemState(init).value, lines[|lines| - 1]);
      if k < |lines| - 1 {
        assert init[k] == lines[k];
        assert forall j :: k < j < |init| ==> init[j] == lines[j];
        MemLastTotalWins(init, k, t);
      }
    }
  }

  /**
   * The last line naming MemAvailable sets the available amount, whatever
   * the lines after it say about MemTotal.
   */
  lemma {:induction false} MemLastAvailableWins(lines: seq<string>, k: nat, a: int)
    requires k < |lines| && Contains(lines[k], "MemAvailable") && SecondField(lines[k]) == Ok(a)
    requires forall j :: k < j < |lines| ==> !Contains(lines[j], "MemAvailable")
    ensures MemState(lines).Ok? ==> MemState(lines).value.1 == a
    decreases |lines|
  {
    var init := lines[..|lines| - 1];
    if MemState(lines).Ok? {
      assert MemState(init).Ok?;
      MemLineUpdates(MemState(init).value, lines[|lines| - 1]);
      if k < |lines| - 1 {
        assert init[k] == lines[k];
        assert forall j :: k < j < |init| ==> init[j] == lines[j];
        MemLastAvailableWins(init, k, a);
      }
    }
  }

  /**
   * A file whose key lines all parse reports the last MemTotal value t and
   * t minus the last MemAvailable value a, in whichever order the two keys
   * appear.
   */
  lemma MemInfoOfFile(lines: seq<string>, kt: nat, t: int, ka: nat, a: int)
    requires forall j :: 0 <= j < |lines| ==> KeyLineParses(lines[j])
    requires kt < |lines| && Contains(lines[kt], "MemTotal") && SecondField(lines[kt]) == Ok(t)
    requires forall j :: kt < j < |lines| ==> !Contains(lines[j], "MemTotal")
    requires ka < |lines| && Contains(lines[ka], "MemAvailable") && SecondField(lines[ka]) == Ok(a)
    requires forall j :: ka < j < |lines| ==> !Contains(lines[j], "MemAvailable")
    ensures MemInfo(lines) == Ok((t, t - a))
  {
    MemStateOk(lines);
    var s := MemState(lines);
    assert s.Ok?;
    MemLastTotalWins(lines, kt, t);
    MemLastAvailableWins(lines, ka, a);
    assert s.value == (t, a);
  }

  /** Without a MemAvailable line the whole total counts as used. */
  lemma {:induction false} MemWithoutAvailable(lines: seq<string>)
    requires forall k :: 0 <= k < |lines| ==> !Contains(lines[k], "MemAvailable")
    requires MemState(lines).Ok?
    ensures MemState(lines).value.1 == 0
    ensures MemInfo(lines) == Ok((MemState(lines).value.0, MemState(lines).value.0))
    decreases |lines|
  {
    if lines != [] {
      var init := lines[..|lines| - 1];
      MemWithoutAvailable(init);
    }
  }

  /** An unreadable file reads as "": every counter is zero. */
  lemma UnreadableFilesReadZero()
    ensures CpuTimes(Lines("")) == Ok((0, 0))
    ensures DiskIo(Lines("")) == Ok((0, 0))
    ensures MemInfo(Lines("")) == Ok((0, 0))
  {
  }
}
