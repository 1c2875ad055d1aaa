/** The hardware record of src/sensors.rs and the methods that fill it in
    place. The text each method would read from a file or a command is
    passed in: `None` stands for a file that cannot be read, a command that
    cannot be run or (for `nvidia-smi`) one that exits with a failure. */
module Sensors {
  import opened Wrappers
  import opened Text
  import opened Numbers
  import opened CpuStat
  import opened CpuInfo
  import opened Patterns
  import opened Gpu
  import opened Ram

  // ---------------------------------------------------------------------
  // What the pattern-driven updates compute (src/sensors.rs:280-320)
  // ---------------------------------------------------------------------

  /** The CPU temperature patterns, in the order they are tried. */
  const CPU_TEMP_PATTERNS: seq<Pattern> := [TCTL, TDIE, PACKAGE, CORE0]

  function Extractor(sensors: string): Pattern -> Option<string> {
    p => ExtractSensorValue(sensors, p)
  }

  /** The CPU temperature after update_cpu_info: the value of the first
      pattern that matches, or the current one when none does. */
  function CpuTemp(current: string, sensors: string): string {
    match FirstSome(CPU_TEMP_PATTERNS, Extractor(sensors))
    case Some(t) => t
    case None => current
  }

  /** The search over the four patterns, one pattern at a time. */
  lemma CpuTempChain(current: string, sensors: string)
    ensures CpuTemp(current, sensors) ==
      if ExtractSensorValue(sensors, TCTL).Some? then ExtractSensorValue(sensors, TCTL).value
      else if ExtractSensorValue(sensors, TDIE).Some? then ExtractSensorValue(sensors, TDIE).value
      else if ExtractSensorValue(sensors, PACKAGE).Some? then ExtractSensorValue(sensors, PACKAGE).value
      else if ExtractSensorValue(sensors, CORE0).Some? then ExtractSensorValue(sensors, CORE0).value
      else current
  {
    var ps := CPU_TEMP_PATTERNS;
    var f := Extractor(sensors);
    var p1, p2, p3: seq<Pattern> := [TDIE, PACKAGE, CORE0], [PACKAGE, CORE0], [CORE0];
    assert ps[1..] == p1 && p1[1..] == p2 && p2[1..] == p3 && p3[1..] == [];
    assert FirstSome(p3, f) == f(CORE0);
    assert FirstSome(p2, f) == if f(PACKAGE).Some? then f(PACKAGE) else f(CORE0);
    assert FirstSome(p1, f) == if f(TDIE).Some? then f(TDIE) else FirstSome(p2, f);
    assert FirstSome(ps, f) == if f(TCTL).Some? then f(TCTL) else FirstSome(p1, f);
  }

  /** No match of `p` anywhere in `sensors`. */
  ghost predicate NoMatch(sensors: string, p: Pattern) {
    forall i :: 0 <= i <= |sensors| ==> MatchAt(sensors, i, p).None?
  }

  /** The temperature comes from the first pattern, in priority order, that
      matches anywhere: patterns after it are not looked at. */
  lemma CpuTempPriority(current: string, sensors: string, k: nat)
    requires k < |CPU_TEMP_PATTERNS| && !NoMatch(sensors, CPU_TEMP_PATTERNS[k])
    requires forall j :: 0 <= j < k ==> NoMatch(sensors, CPU_TEMP_PATTERNS[j])
    ensures ExtractSensorValue(sensors, CPU_TEMP_PATTERNS[k]).Some?
    ensures CpuTemp(current, sensors) == ExtractSensorValue(sensors, CPU_TEMP_PATTERNS[k]).value
  {
    var f := Extractor(sensors);
    ExtractSensorValueSound(sensors, CPU_TEMP_PATTERNS[k]);
    assert f(CPU_TEMP_PATTERNS[k]).Some?;
    forall j | 0 <= j < k ensures f(CPU_TEMP_PATTERNS[j]).None? {
      ExtractSensorValueSound(sensors, CPU_TEMP_PATTERNS[j]);
    }
    FirstSomeAt(CPU_TEMP_PATTERNS, f, k);
  }

  /** When no temperature pattern matches, the old temperature stays. */
  lemma CpuTempKept(current: string, sensors: string)
    requires forall j :: 0 <= j < |CPU_TEMP_PATTERNS| ==> NoMatch(sensors, CPU_TEMP_PATTERNS[j])
    ensures CpuTemp(current, sensors) == current
  {
    var f := Extractor(sensors);
    forall j | 0 <= j < |CPU_TEMP_PATTERNS| ensures f(CPU_TEMP_PATTERNS[j]).None? {
      ExtractSensorValueSound(sensors, CPU_TEMP_PATTERNS[j]);
    }
    FirstSomeNone(CPU_TEMP_PATTERNS, f);
  }

  /** A fan reading after update_fan_info: the captured RPM value followed
      by ` RPM`, or the current reading when the pattern does not match. */
  function FanReading(current: string, sensors: string, p: Pattern): string {
    match ExtractSensorValue(sensors, p)
    case Some(v) => v + " RPM"
    case None => current
  }

  /** A fan read with a fallback: the second pattern is tried only when the first does not match. */
  function FanWithFallback(current: string, sensors: string, first: Pattern, second: Pattern): string {
    match ExtractSensorValue(sensors, first)
    case Some(v) => v + " RPM"
    case None => FanReading(current, sensors, second)
  }

  /** Chassis fan 2: the `nct6799` chip's fan1, else the `nct6798` chip's,
      with the patterns as src/sensors.rs:27-31 writes them. */
  function ChassisFan2(current: string, sensors: string): string {
    FanWithFallback(current, sensors, CHASSIS2_A, CHASSIS2_B)
  }

  /** Chassis fan 2 as evidently intended: the same fallback with `.`
      matching line breaks, so that a chip's `fan1:` line below its header
      is reached. */
  function ChassisFan2Intended(current: string, sensors: string): string {
    FanWithFallback(current, sensors, CHASSIS2_A_DOTALL, CHASSIS2_B_DOTALL)
  }

  /** A fan whose pattern matches nowhere keeps its reading. */
  lemma FanReadingKept(current: string, sensors: string, p: Pattern)
    requires NoMatch(sensors, p)
    ensures FanReading(current, sensors, p) == current
  {
    ExtractSensorValueSound(sensors, p);
  }

  /** A fan whose pattern matches somewhere reads the capture of the first
      match followed by ` RPM`, whatever it read before. */
  lemma FanReadingMatched(current: string, sensors: string, p: Pattern, i: nat)
    requires i <= |sensors| && MatchAt(sensors, i, p).Some? && NoMatchBefore(sensors, p, i)
    ensures FanReading(current, sensors, p) == MatchAt(sensors, i, p).value.capture + " RPM"
  {
    ExtractFirstMatch(sensors, p, i);
  }

  /** The first match of a pattern is the one extracted. */
  lemma ExtractFirstMatch(sensors: string, p: Pattern, i: nat)
    requires i <= |sensors| && MatchAt(sensors, i, p).Some? && NoMatchBefore(sensors, p, i)
    ensures ExtractSensorValue(sensors, p) == Some(MatchAt(sensors, i, p).value.capture)
  {
    ExtractSensorValueSound(sensors, p);
    var r := ExtractSensorValue(sensors, p);
    var j :| 0 <= j <= |sensors| && MatchAt(sensors, j, p).Some?
             && r.value == MatchAt(sensors, j, p).value.capture && NoMatchBefore(sensors, p, j);
    assert j == i;
  }

  /** The fallback pattern decides only when the first pattern matches
      nowhere; when it matches somewhere, the second is not looked at. */
  lemma FanWithFallbackOrder(current: string, sensors: string, first: Pattern, second: Pattern)
    ensures NoMatch(sensors, first) ==>
      FanWithFallback(current, sensors, first, second) == FanReading(current, sensors, second)
    ensures !NoMatch(sensors, first) ==>
      FanWithFallback(current, sensors, first, second) == FanReading(current, sensors, first)
  {
    ExtractSensorValueSound(sensors, first);
  }

  /** The intended fallback takes effect: on a `sensors` block of the
      `nct6798` chip alone, chassis fan 2 would read its fan1. */
  lemma ChassisFan2OnNct6798Block(current: string, b: string)
    requires b == NCT6798_BLOCK
    ensures ChassisFan2Intended(current, b) == "1200 RPM"
  {
    ChassisFan2Resolves(b);
    assert FanWithFallback(current, b, CHASSIS2_A_DOTALL, CHASSIS2_B_DOTALL) == FanReading(current, b, CHASSIS2_B_DOTALL);
  }

  /** With the patterns as written, the same block leaves the old chassis
      fan 2 reading in place. */
  lemma ChassisFan2AsWrittenKeepsOld(current: string, b: string)
    requires b == NCT6798_BLOCK
    ensures ChassisFan2(current, b) == current
  {
    ChassisFan2AsWrittenMisses(b);
  }

  /** The NVMe temperatures after update_nvme_info: the captures of all
      successive non-overlapping `Composite:` matches, in order. */
  function NvmeTemps(sensors: string): seq<string> {
    Captures(FindAll(sensors, NVME, 0))
  }

  /** No match of `p` starts in [lo, hi). */
  ghost predicate NoMatchIn(sensors: string, p: Pattern, lo: nat, hi: nat) {
    forall i :: lo <= i < hi && i <= |sensors| ==> MatchAt(sensors, i, p).None?
  }

  lemma NoMatchInOfMatcher(sensors: string, p: Pattern, lo: nat, hi: nat)
    requires NoneIn(Matcher(sensors, p), lo, hi)
    ensures NoMatchIn(sensors, p, lo, hi)
  {
    forall i | lo <= i < hi && i <= |sensors| ensures MatchAt(sensors, i, p).None? {
      assert Matcher(sensors, p)(i).None?;
    }
  }

  /** Every NVMe temperature is the capture of a match, the matches follow
      one another without overlap, and none is skipped: no match starts
      before the first, between two of them, or after the last. */
  lemma NvmeTempsAreAllMatches(sensors: string)
    ensures var ms := FindAll(sensors, NVME, 0);
      NvmeTemps(sensors) == Captures(ms)
      && (forall k :: 0 <= k < |ms| ==> ms[k].start <= |sensors| && MatchAt(sensors, ms[k].start, NVME) == Some(ms[k]))
      && (forall k :: 0 < k < |ms| ==> ms[k - 1].end <= ms[k].start && NoMatchIn(sensors, NVME, ms[k - 1].end, ms[k].start))
      && (ms == [] ==> NoMatch(sensors, NVME))
      && (ms != [] ==> NoMatchIn(sensors, NVME, 0, ms[0].start))
      && (ms != [] ==> NoMatchIn(sensors, NVME, ms[|ms| - 1].end, |sensors| + 1))
  {
    var ms := FindAll(sensors, NVME, 0);
    FindAllSound(sensors, NVME, 0);
    forall k | 0 < k < |ms| ensures NoMatchIn(sensors, NVME, ms[k - 1].end, ms[k].start) {
      NoMatchInOfMatcher(sensors, NVME, ms[k - 1].end, ms[k].start);
    }
    if ms == [] {
      NoMatchInOfMatcher(sensors, NVME, 0, |sensors| + 1);
    } else {
      NoMatchInOfMatcher(sensors, NVME, 0, ms[0].start);
      NoMatchInOfMatcher(sensors, NVME, ms[|ms| - 1].end, |sensors| + 1);
    }
  }

  /** The fields update_sensors writes: the CPU temperature, the four GPU
      readings, the NVMe temperatures and the three fans. */
  datatype SensorReadings = SensorReadings(cpuTemp: string, gpu: GpuReadings, nvme: seq<string>,
                                           cpuFan: string, chassisFan1: string, chassisFan2: string)

  /** The readings after update_sensors: unchanged when `sensors` cannot be
      run; otherwise each is recomputed from its output, the GPU readings
      by the vendor of the GPU named `gpuName`. */
  function SensorsAfter(r: SensorReadings, gpuName: string, sensors: Option<string>, smi: Option<string>): (r': SensorReadings)
    ensures sensors.None? ==> r' == r
    ensures sensors.Some? ==> r'.nvme == NvmeTemps(sensors.value)
  {
    match sensors
    case None => r
    case Some(s) =>
      SensorReadings(CpuTemp(r.cpuTemp, s), Dispatch(gpuName, s, smi, r.gpu), NvmeTemps(s),
                     FanReading(r.cpuFan, s, CPU_FAN), FanReading(r.chassisFan1, s, CHASSIS1),
                     ChassisFan2(r.chassisFan2, s))
  }

  // ---------------------------------------------------------------------
  // The record (src/sensors.rs:33-56) and its methods
  // ---------------------------------------------------------------------

  /** The names, the CPU load and the memory readings of the record. */
  datatype Others = Others(cpuName: string, gpuName: string, cpuUsage: real, ram: RamReadings)

  class SensorData {
    var cpuName: string
    var cpuTemp: string
    var cpuUsage: real

    var gpuName: string
    var gpuEdge: string
    var gpuHotspot: string
    var gpuMemory: string
    var gpuFan: string

    var nvmeTemps: seq<string>

    var cpuFan: string
    var chassisFan1: string
    var chassisFan2: string

    var ramTotal: real
    var ramUsed: real
    var ramFree: real
    var ramAvailable: real
    var ramPercent: real

    /** `SensorData::new`: every field empty or zero. */
    constructor ()
      ensures cpuName == [] && cpuTemp == [] && cpuUsage == 0.0
      ensures gpuName == [] && GpuFields() == CLEARED
      ensures nvmeTemps == [] && cpuFan == [] && chassisFan1 == [] && chassisFan2 == []
      ensures RamFields() == RamReadings(0.0, 0.0, 0.0, 0.0, 0.0)
    {
      cpuName, cpuTemp, cpuUsage := [], [], 0.0;
      gpuName, gpuEdge, gpuHotspot, gpuMemory, gpuFan := [], [], [], [], [];
      nvmeTemps := [];
      cpuFan, chassisFan1, chassisFan2 := [], [], [];
      ramTotal, ramUsed, ramFree, ramAvailable, ramPercent := 0.0, 0.0, 0.0, 0.0, 0.0;
    }

    /** The four GPU readings. */
    function GpuFields(): GpuReadings
      reads this`gpuEdge, this`gpuHotspot, this`gpuMemory, this`gpuFan
    {
      GpuReadings(gpuEdge, gpuHotspot, gpuMemory, gpuFan)
    }

    /** The fields update_sensors writes. */
    function SensorFields(): SensorReadings
      reads this`cpuTemp, this`gpuEdge, this`gpuHotspot, this`gpuMemory, this`gpuFan
      reads this`nvmeTemps, this`cpuFan, this`chassisFan1, this`chassisFan2
    {
      SensorReadings(cpuTemp, GpuFields(), nvmeTemps, cpuFan, chassisFan1, chassisFan2)
    }

    /** The fields update_sensors leaves alone. */
    function OtherFields(): Others
      reads this`cpuName, this`gpuName, this`cpuUsage
      reads this`ramTotal, this`ramUsed, this`ramFree, this`ramAvailable, this`ramPercent
    {
      Others(cpuName, gpuName, cpuUsage, RamFields())
    }

    /** The five memory fields. */
    function RamFields(): RamReadings
      reads this`ramTotal, this`ramUsed, this`ramFree, this`ramAvailable, this`ramPercent
    {
      RamReadings(ramTotal, ramUsed, ramFree, ramAvailable, ramPercent)
    }

    /** `identify_hardware`: the processor name, then the GPU name. */
    method IdentifyHardware(cpuinfo: Option<string>, smiName: Option<string>, lspci: Option<string>)
      modifies this`cpuName, this`gpuName
      ensures cpuName == ProcessorName(old(cpuName), cpuinfo)
      ensures gpuName == ResolveGpuName(old(gpuName), smiName, lspci)
    {
      IdentifyProcessor(cpuinfo);
      IdentifyGpu(smiName, lspci);
    }

    /** `identify_processor`: scans `/proc/cpuinfo` for the first
        `model name` line with a `:` and stops there. */
    method IdentifyProcessor(cpuinfo: Option<string>)
      modifies this`cpuName
      ensures cpuName == ProcessorName(old(cpuName), cpuinfo)
    {
      if cpuinfo.None? {
        return;
      }
      var lines := Lines(cpuinfo.value);
      var i := 0;
      while i < |lines|
        invariant 0 <= i <= |lines|
        invariant cpuName == old(cpuName)
        invariant FirstSome(lines[i..], ModelName) == FirstSome(lines, ModelName)
      {
        var line := lines[i];
        if StartsWith(line, "model name") {
          var name := SecondPiece(line, ":");
          if name.Some? {
            cpuName := Trim(name.value);
            assert lines[i..][0] == line && ModelName(line) == Some(cpuName);
            break;
          }
        }
        FirstSomeSkip(lines, ModelName, i);
        i := i + 1;
      }
    }

    /** The bracket loop of `identify_gpu`: the content of the last
        complete `[...]` of `line`, or "" when there is none. */
    method FindLastBracket(line: string) returns (last: string)
      ensures last == LastBracket(line)
    {
      last := [];
      var pos := 0;
      while FindChar(line, '[', pos).Some?
        invariant pos <= |line|
        invariant LastBracketFrom(line, pos, last) == LastBracket(line)
        decreases |line| - pos
      {
        var start := FindChar(line, '[', pos).value;
        var end := FindChar(line, ']', start);
        if end.None? {
          break;
        }
        last := line[start + 1..end.value];
        pos := end.value + 1;
      }
    }

    /** `identify_gpu`: a non-empty `nvidia-smi` name, else the first
        `lspci` VGA line that yields a name, else `Unknown GPU` when the
        name is still empty. */
    method IdentifyGpu(smiName: Option<string>, lspci: Option<string>)
      modifies this`gpuName
      ensures gpuName == ResolveGpuName(old(gpuName), smiName, lspci)
    {
      if smiName.Some? {
        var name := Trim(smiName.value);
        if name != [] {
          gpuName := name;
          return;
        }
      }
      if lspci.Some? {
        var lines := Lines(lspci.value);
        var i := 0;
        while i < |lines|
          invariant 0 <= i <= |lines|
          invariant gpuName == old(gpuName)
          invariant FirstSome(lines[i..], VgaName) == FirstSome(lines, VgaName)
        {
          var line := lines[i];
          if Contains(line, "VGA compatible controller") {
            var last := FindLastBracket(line);
            if last != [] && last != "AMD/ATI" {
              gpuName := last;
              assert lines[i..][0] == line && VgaName(line) == Some(last);
              return;
            }
            var part := SecondPiece(line, "controller:");
            if part.Some? {
              var gpuPart := Trim(part.value);
              if gpuPart != [] {
                gpuName := gpuPart;
                assert lines[i..][0] == line && VgaName(line) == Some(gpuPart);
                return;
              }
            }
          }
          FirstSomeSkip(lines, VgaName, i);
          i := i + 1;
        }
      }
      if gpuName == [] {
        gpuName := UNKNOWN_GPU;
      }
    }

    /** `update_nvidia_gpu_info`, given the output of the temperature and
        fan query (None when it failed). */
    method UpdateNvidiaGpuInfo(smi: Option<string>)
      modifies this`gpuEdge, this`gpuFan
      ensures GpuFields() == ApplyNvidia(old(GpuFields()), smi)
      ensures SensorFields() == old(SensorFields()).(gpu := GpuFields())
      ensures OtherFields() == old(OtherFields())
    {
      if smi.Some? {
        var parts := NvidiaFields(smi.value);
        gpuEdge := Trim(parts[0]);
        if |parts| > 1 {
          gpuFan := Trim(parts[1]) + " RPM";
        }
      }
    }

    /** `update_radeon_gpu_info`: the section scan over the lines of the
        `sensors` output, starting outside any section. */
    method UpdateRadeonGpuInfo(sensors: string)
      modifies this`gpuEdge, this`gpuHotspot, this`gpuMemory, this`gpuFan
      ensures GpuFields() == Scan(ScanState(false, old(GpuFields())), Lines(sensors)).readings
      ensures SensorFields() == old(SensorFields()).(gpu := GpuFields())
      ensures OtherFields() == old(OtherFields())
    {
      var lines := Lines(sensors);
      var inSection := false;
      ghost var start := ScanState(false, GpuFields());
      for i := 0 to |lines|
        invariant ScanState(inSection, GpuFields()) == Scan(start, lines[..i])
        invariant SensorFields() == old(SensorFields()).(gpu := GpuFields())
        invariant OtherFields() == old(OtherFields())
      {
        ScanSnoc(start, lines, i);
        inSection := ScanLine(lines[i], inSection);
      }
      assert lines[..|lines|] == lines;
    }

    /** The body of the Radeon scan loop for one line: a header clears the
        readings and opens the section; in an open section a line naming
        another chip closes it, and any other line is read for a reading. */
    method ScanLine(line: string, inSection: bool) returns (stillIn: bool)
      modifies this`gpuEdge, this`gpuHotspot, this`gpuMemory, this`gpuFan
      ensures ScanState(stillIn, GpuFields()) == Step(ScanState(inSection, old(GpuFields())), line)
      ensures SensorFields() == old(SensorFields()).(gpu := GpuFields())
      ensures OtherFields() == old(OtherFields())
    {
      var trimmed := TrimStart(line);
      if StartsWith(trimmed, "amdgpu-pci-") {
        gpuEdge, gpuHotspot, gpuMemory, gpuFan := [], [], [], [];
        return true;
      }
      stillIn := inSection;
      if stillIn && !StartsWith(trimmed, "amdgpu-pci-") && trimmed != []
         && trimmed[0] != ' ' && trimmed[0] != '\t'
         && (Contains(trimmed, "-isa-") || Contains(trimmed, "-pci-") || Contains(trimmed, "-i2c-")) {
        stillIn := false;
      }
      if stillIn {
        ReadLabel(SplitWhitespace(trimmed));
      }
    }

    /** A line of the open section, split into words: the reading its
        label names, if any, is stored. */
    method ReadLabel(parts: seq<string>)
      modifies this`gpuEdge, this`gpuHotspot, this`gpuMemory, this`gpuFan
      ensures GpuFields() == ApplyLabel(old(GpuFields()), parts)
      ensures SensorFields() == old(SensorFields()).(gpu := GpuFields())
      ensures OtherFields() == old(OtherFields())
    {
      if parts == [] {
        return;
      }
      var lbl := parts[0];
      if StartsWith(lbl, "junction") && |parts| >= 2 {
        gpuHotspot := StripPluses(parts[1]);
      } else if StartsWith(lbl, "edge") && |parts| >= 2 {
        gpuEdge := StripPluses(parts[1]);
      } else if StartsWith(lbl, "mem") && |parts| >= 2 {
        gpuMemory := StripPluses(parts[1]);
      } else if StartsWith(lbl, "fan") && |parts| >= 2 {
        gpuFan := parts[1] + " RPM";
      }
    }

    /** `update_gpu_info`: the NVIDIA parse when the name says so, then,
        independently, the Radeon scan. */
    method UpdateGpuInfo(sensors: string, smi: Option<string>)
      modifies this`gpuEdge, this`gpuHotspot, this`gpuMemory, this`gpuFan
      ensures GpuFields() == Dispatch(gpuName, sensors, smi, old(GpuFields()))
      ensures SensorFields() == old(SensorFields()).(gpu := GpuFields())
      ensures OtherFields() == old(OtherFields())
    {
      if Contains(ToLower(gpuName), "nvidia") {
        UpdateNvidiaGpuInfo(smi);
      }
      if Contains(gpuName, "Radeon") || Contains(sensors, "amdgpu") {
        UpdateRadeonGpuInfo(sensors);
      }
    }

    /** `update_cpu_info`: the temperature patterns in priority order. */
    method UpdateCpuInfo(sensors: string)
      modifies this`cpuTemp
      ensures cpuTemp == CpuTemp(old(cpuTemp), sensors)
      ensures SensorFields() == old(SensorFields()).(cpuTemp := cpuTemp)
      ensures OtherFields() == old(OtherFields())
    {
      CpuTempChain(cpuTemp, sensors);
      var tctl := ExtractSensorValue(sensors, TCTL);
      if tctl.Some? {
        cpuTemp := tctl.value;
        return;
      }
      var tdie := ExtractSensorValue(sensors, TDIE);
      if tdie.Some? {
        cpuTemp := tdie.value;
        return;
      }
      var package := ExtractSensorValue(sensors, PACKAGE);
      if package.Some? {
        cpuTemp := package.value;
        return;
      }
      var core0 := ExtractSensorValue(sensors, CORE0);
      if core0.Some? {
        cpuTemp := core0.value;
      }
    }

    /** `update_nvme_info`: the list is cleared, then every successive
        `Composite:` capture is appended. */
    method UpdateNvmeInfo(sensors: string)
      modifies this`nvmeTemps
      ensures nvmeTemps == NvmeTemps(sensors)
      ensures SensorFields() == old(SensorFields()).(nvme := nvmeTemps)
      ensures OtherFields() == old(OtherFields())
    {
      nvmeTemps := [];
      var pos := 0;
      while Find(sensors, NVME, pos).Some?
        invariant pos <= |sensors|
        invariant nvmeTemps + Captures(FindAll(sensors, NVME, pos)) == NvmeTemps(sensors)
        decreases |sensors| - pos
      {
        var m := Find(sensors, NVME, pos).value;
        CapturesFromMatch(nvmeTemps, sensors, NVME, pos);
        nvmeTemps := nvmeTemps + [m.capture];
        pos := m.end;
      }
      FindAllStep(sensors, NVME, pos);
      assert nvmeTemps + [] == nvmeTemps;
    }

    /** `update_fan_info`: each fan is read when its pattern matches;
        chassis fan 2 falls back from the `nct6799` to the `nct6798` chip. */
    method UpdateFanInfo(sensors: string)
      modifies this`cpuFan, this`chassisFan1, this`chassisFan2
      ensures cpuFan == FanReading(old(cpuFan), sensors, CPU_FAN)
      ensures chassisFan1 == FanReading(old(chassisFan1), sensors, CHASSIS1)
      ensures chassisFan2 == ChassisFan2(old(chassisFan2), sensors)
      ensures cpuTemp == old(cpuTemp) && GpuFields() == old(GpuFields()) && nvmeTemps == old(nvmeTemps)
      ensures OtherFields() == old(OtherFields())
    {
      var cpu, chassis1, chassis2 := cpuFan, chassisFan1, chassisFan2;
      var fan := ExtractSensorValue(sensors, CPU_FAN);
      if fan.Some? {
        cpu := fan.value + " RPM";
      }
      fan := ExtractSensorValue(sensors, CHASSIS1);
      if fan.Some? {
        chassis1 := fan.value + " RPM";
      }
      fan := ExtractSensorValue(sensors, CHASSIS2_A);
      if fan.None? {
        fan := ExtractSensorValue(sensors, CHASSIS2_B);
      }
      if fan.Some? {
        chassis2 := fan.value + " RPM";
      }
      StoreFans(cpu, chassis1, chassis2);
    }

    /** Writes the three fan readings, and nothing else. */
    method StoreFans(cpu: string, chassis1: string, chassis2: string)
      modifies this`cpuFan, this`chassisFan1, this`chassisFan2
      ensures cpuFan == cpu && chassisFan1 == chassis1 && chassisFan2 == chassis2
      ensures cpuTemp == old(cpuTemp) && GpuFields() == old(GpuFields()) && nvmeTemps == old(nvmeTemps)
      ensures OtherFields() == old(OtherFields())
    {
      cpuFan := cpu;
      chassisFan1 := chassis1;
      chassisFan2 := chassis2;
    }

    /** `update_sensors`: when `sensors` cannot be run nothing changes;
        otherwise the CPU temperature, the GPU readings, the NVMe
        temperatures and the fans are updated from its output, in that order. */
    method UpdateSensors(sensors: Option<string>, smi: Option<string>)
      modifies this`cpuTemp, this`gpuEdge, this`gpuHotspot, this`gpuMemory, this`gpuFan
      modifies this`nvmeTemps, this`cpuFan, this`chassisFan1, this`chassisFan2
      ensures SensorFields() == SensorsAfter(old(SensorFields()), gpuName, sensors, smi)
      ensures OtherFields() == old(OtherFields())
    {
      if sensors.None? {
        return;
      }
      var s := sensors.value;
      UpdateCpuInfo(s);
      UpdateGpuInfo(s, smi);
      UpdateNvmeInfo(s);
      UpdateFanInfo(s);
    }

    /** `update_ram`: the first memory row of `free -m` and no other. */
    method UpdateRam(free: Option<string>)
      modifies this`ramTotal, this`ramUsed, this`ramFree, this`ramAvailable, this`ramPercent
      ensures RamFields() == RamAfter(old(RamFields()), free)
      ensures SensorFields() == old(SensorFields())
      ensures OtherFields() == old(OtherFields()).(ram := RamFields())
    {
      if free.None? {
        return;
      }
      var lines := Lines(free.value);
      var i := 0;
      while i < |lines|
        invariant 0 <= i <= |lines|
        invariant RamFields() == old(RamFields())
        invariant FirstSome(lines[i..], MemLineOf) == FirstSome(lines, MemLineOf)
      {
        var line := lines[i];
        if StartsWith(line, "Mem:") || StartsWith(line, "Mem.:") {
          ReadMemLine(line);
          assert lines[i..][0] == line && MemLineOf(line) == Some(line);
          break;
        }
        FirstSomeSkip(lines, MemLineOf, i);
        i := i + 1;
      }
    }

    /** The body of update_ram for the memory row `line`: with at least
        seven fields, each of the four sizes is replaced when it parses,
        then the percentage is recomputed when the total is positive (the
        new readings are gathered in `r` and written back together). */
    method ReadMemLine(line: string)
      modifies this`ramTotal, this`ramUsed, this`ramFree, this`ramAvailable, this`ramPercent
      ensures RamFields() == ApplyMemLine(old(RamFields()), line)
      ensures SensorFields() == old(SensorFields())
      ensures OtherFields() == old(OtherFields()).(ram := RamFields())
    {
      var parts := SplitWhitespace(line);
      if |parts| >= 7 {
        var r := RamFields();
        var total := ParseF32(parts[1]);
        GibibytesOfParse(parts[1], r.total, total);
        if total.Some? {
          r := r.(total := total.value / 1024.0);
        }
        var used := ParseF32(parts[2]);
        GibibytesOfParse(parts[2], r.used, used);
        if used.Some? {
          r := r.(used := used.value / 1024.0);
        }
        var freeMem := ParseF32(parts[3]);
        GibibytesOfParse(parts[3], r.free, freeMem);
        if freeMem.Some? {
          r := r.(free := freeMem.value / 1024.0);
        }
        var available := ParseF32(parts[6]);
        GibibytesOfParse(parts[6], r.available, available);
        if available.Some? {
          r := r.(available := available.value / 1024.0);
        }
        if r.total > 0.0 {
          r := r.(percent := r.used / r.total * 100.0);
        }
        ApplyMemLineFields(old(RamFields()), line, r);
        StoreRam(r);
      }
    }

    /** Writes the five memory fields, and nothing else. */
    method StoreRam(r: RamReadings)
      modifies this`ramTotal, this`ramUsed, this`ramFree, this`ramAvailable, this`ramPercent
      ensures RamFields() == r
      ensures SensorFields() == old(SensorFields())
      ensures OtherFields() == old(OtherFields()).(ram := r)
    {
      ramTotal := r.total;
      ramUsed := r.used;
      ramFree := r.free;
      ramAvailable := r.available;
      ramPercent := r.percent;
    }

    /** `update`: the CPU load from two readings of `/proc/stat`, then the
        `sensors` readings, then memory. The names found by
        identification are left alone. */
    method Update(stat1: string, stat2: string, sensors: Option<string>, smi: Option<string>, free: Option<string>)
      modifies this`cpuUsage, this`cpuTemp, this`gpuEdge, this`gpuHotspot, this`gpuMemory, this`gpuFan
      modifies this`nvmeTemps, this`cpuFan, this`chassisFan1, this`chassisFan2
      modifies this`ramTotal, this`ramUsed, this`ramFree, this`ramAvailable, this`ramPercent
      ensures cpuName == old(cpuName) && gpuName == old(gpuName)
      ensures cpuUsage == CpuUsage(stat1, stat2)
      ensures SensorFields() == SensorsAfter(old(SensorFields()), gpuName, sensors, smi)
      ensures RamFields() == RamAfter(old(RamFields()), free)
    {
      cpuUsage := CpuUsage(stat1, stat2);
      UpdateSensors(sensors, smi);
      ghost var readings := SensorFields();
      UpdateRam(free);
      assert SensorFields() == readings;
    }
  }
}
