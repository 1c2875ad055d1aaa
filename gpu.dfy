/** The GPU part of src/sensors.rs: naming the GPU from `nvidia-smi` or
    `lspci` output (identify_gpu), reading the `nvidia-smi` CSV line
    (update_nvidia_gpu_info), the `amdgpu` section scanner of `sensors`
    output (update_radeon_gpu_info) and the vendor dispatch between the
    two (update_gpu_info). */
module Gpu {
  import opened Wrappers
  import opened Text

  // ---------------------------------------------------------------------
  // The last complete `[...]` of an `lspci` line (src/sensors.rs:147-160)
  // ---------------------------------------------------------------------

  /** What the bracket loop ends with when it resumes at `pos` holding
      `last`: the next `[` from `pos` and the first `]` after it make a
      pair whose content replaces `last`; a missing `[`, or a `[` with no
      `]` after it, ends the loop. */
  function LastBracketFrom(line: string, pos: nat, last: string): string
    requires pos <= |line|
    decreases |line| - pos
  {
    match FindChar(line, '[', pos)
    case None => last
    case Some(st) =>
      match FindChar(line, ']', st)
      case None => last
      case Some(en) => LastBracketFrom(line, en + 1, line[st + 1..en])
  }

  /** The content of the last complete bracket pair of `line`, or "" when it has none. */
  function LastBracket(line: string): string {
    LastBracketFrom(line, 0, "")
  }

  /** A `[` at `st` closed by the first `]` after it, at `en`. */
  ghost predicate IsPair(line: string, st: nat, en: nat) {
    st < en < |line| && line[st] == '[' && line[en] == ']'
    && forall k :: st < k < en ==> line[k] != ']'
  }

  /** From `p` on, no `[` is followed by a `]`: there is no complete pair. */
  ghost predicate NoPairFrom(line: string, p: nat) {
    forall a, b :: p <= a < b < |line| && line[a] == '[' ==> line[b] != ']'
  }

  /** Every `[` in [p, st) is closed before `st`: `st` is the first `[` of
      the line left open after the pair before it. */
  ghost predicate ClosedBefore(line: string, p: nat, st: nat)
    requires st <= |line|
  {
    forall k :: p <= k < st && line[k] == '[' ==> ']' in line[k + 1..st]
  }

  /** `r` is the content of a pair from `p` on that no complete pair
      follows, whose `[` is the first one left open from `p`. */
  ghost predicate LastPairFrom(line: string, p: nat, r: string) {
    exists st: nat, en: nat :: p <= st && IsPair(line, st, en) && r == line[st + 1..en]
                               && NoPairFrom(line, en + 1) && ClosedBefore(line, p, st)
  }

  /** The loop keeps `last` only when no complete pair follows `pos`;
      otherwise it ends with the content of a pair that no complete pair
      follows, whose `[` is the first one left open. */
  lemma {:induction false} LastBracketFromSound(line: string, pos: nat, last: string)
    requires pos <= |line|
    ensures var r := LastBracketFrom(line, pos, last);
      (r == last && NoPairFrom(line, pos)) || LastPairFrom(line, pos, r)
    decreases |line| - pos
  {
    match FindChar(line, '[', pos)
    case None =>
      FindCharSound(line, '[', pos);
      assert NoPairFrom(line, pos);
    case Some(st) =>
      match FindChar(line, ']', st)
      case None =>
        FindCharSound(line, '[', pos);
        FindCharSound(line, ']', st);
        assert NoPairFrom(line, pos);
      case Some(en) =>
        var content := line[st + 1..en];
        var r := LastBracketFrom(line, en + 1, content);
        assert LastBracketFrom(line, pos, last) == r;
        FindCharSound(line, '[', pos);
        FindCharSound(line, ']', st);
        assert IsPair(line, st, en);
        assert ClosedBefore(line, pos, st);
        LastBracketFromSound(line, en + 1, content);
        PairThenRest(line, pos, st, en, r);
  }

  /** After the pair [st, en], the loop ends with that pair's content when
      no complete pair follows it, and otherwise with the last pair after
      it, which is then also the last one from `pos`. */
  lemma PairThenRest(line: string, pos: nat, st: nat, en: nat, r: string)
    requires pos <= st && IsPair(line, st, en) && ClosedBefore(line, pos, st)
    requires (r == line[st + 1..en] && NoPairFrom(line, en + 1)) || LastPairFrom(line, en + 1, r)
    ensures LastPairFrom(line, pos, r)
  {
    if !LastPairFrom(line, en + 1, r) {
      assert pos <= st && IsPair(line, st, en) && r == line[st + 1..en]
             && NoPairFrom(line, en + 1) && ClosedBefore(line, pos, st);
    } else {
      var st2: nat, en2: nat :| en + 1 <= st2 && IsPair(line, st2, en2) && r == line[st2 + 1..en2]
                      && NoPairFrom(line, en2 + 1) && ClosedBefore(line, en + 1, st2);
      ClosedAcrossPair(line, pos, en, st2);
      assert pos <= st2 && IsPair(line, st2, en2) && r == line[st2 + 1..en2]
             && NoPairFrom(line, en2 + 1) && ClosedBefore(line, pos, st2);
    }
  }

  /** A `[` before the `]` at `en` is closed by it, so a `[` left open
      after `en` is the first one left open from any earlier position. */
  lemma ClosedAcrossPair(line: string, pos: nat, en: nat, st: nat)
    requires pos <= en < st <= |line| && line[en] == ']'
    requires ClosedBefore(line, en + 1, st)
    ensures ClosedBefore(line, pos, st)
  {
    forall k | pos <= k < st && line[k] == '['
      ensures ']' in line[k + 1..st]
    {
      if k < en {
        assert line[k + 1..st][en - k - 1] == ']';
      }
    }
  }

  /** The last complete bracket of a line: "" exactly when the line has no
      complete pair or the last pair is empty, and otherwise the content of
      a pair, whose `[` is the first one left open, that no complete pair follows. */
  lemma LastBracketSound(line: string)
    ensures NoPairFrom(line, 0) ==> LastBracket(line) == ""
    ensures LastBracket(line) != "" ==> LastPairFrom(line, 0, LastBracket(line))
  {
    LastBracketFromSound(line, 0, "");
    var r := LastBracket(line);
    if r != "" {
      var st: nat, en: nat :| IsPair(line, st, en) && r == line[st + 1..en];
      assert line[st] == '[' && line[en] == ']';
      assert !NoPairFrom(line, 0);
    }
  }

  // ---------------------------------------------------------------------
  // GPU identification (src/sensors.rs:127-181)
  // ---------------------------------------------------------------------

  /** What one line of `lspci` output names: on a `VGA compatible
      controller` line, the last bracket content unless it is empty or
      `AMD/ATI`, else the non-empty trimmed text after the first
      `controller:`; nothing otherwise. */
  function VgaName(line: string): (r: Option<string>)
    ensures r.Some? ==> r.value != [] && Contains(line, "VGA compatible controller")
    ensures Contains(line, "VGA compatible controller") && LastBracket(line) != [] && LastBracket(line) != "AMD/ATI" ==>
      r == Some(LastBracket(line))
    ensures Contains(line, "VGA compatible controller") && (LastBracket(line) == [] || LastBracket(line) == "AMD/ATI") ==>
      r == match SecondPiece(line, "controller:")
           case Some(part) => if Trim(part) != [] then Some(Trim(part)) else None
           case None => None
    ensures r.Some? && r.value != LastBracket(line) ==>
      SecondPiece(line, "controller:").Some? && r.value == Trim(SecondPiece(line, "controller:").value)
  {
    if !Contains(line, "VGA compatible controller") then None
    else
      var b := LastBracket(line);
      if b != [] && b != "AMD/ATI" then Some(b)
      else match SecondPiece(line, "controller:")
        case Some(part) => if Trim(part) != [] then Some(Trim(part)) else None
        case None => None
  }

  /** The name the `lspci` scan settles on: that of the first line that names one. */
  function LspciName(lspci: Option<string>): (r: Option<string>)
    ensures r.Some? ==> r.value != []
    ensures lspci.None? ==> r.None?
  {
    match lspci
    case None => None
    case Some(out) =>
      FirstSomeSound(Lines(out), VgaName);
      FirstSome(Lines(out), VgaName)
  }

  /** The first line of the `lspci` output that names a GPU decides, whatever
      the lines after it say. */
  lemma LspciNameFirstLine(out: string, k: nat)
    requires k < |Lines(out)| && VgaName(Lines(out)[k]).Some?
    requires forall j :: 0 <= j < k ==> VgaName(Lines(out)[j]).None?
    ensures LspciName(Some(out)) == VgaName(Lines(out)[k])
  {
    FirstSomeAt(Lines(out), VgaName, k);
  }

  /** Output of which no line names a GPU yields no name. */
  lemma LspciNameNone(out: string)
    requires forall j :: 0 <= j < |Lines(out)| ==> VgaName(Lines(out)[j]).None?
    ensures LspciName(Some(out)).None?
  {
    FirstSomeNone(Lines(out), VgaName);
  }

  /** The same for output given as its lines: the first line that names a
      GPU decides. */
  lemma LspciNameOfLines(lines: seq<string>, k: nat)
    requires forall j :: 0 <= j < |lines| ==> IsLine(lines[j])
    requires k < |lines| && VgaName(lines[k]).Some?
    requires forall j :: 0 <= j < k ==> VgaName(lines[j]).None?
    ensures LspciName(Some(Unlines(lines))) == VgaName(lines[k])
  {
    LinesUnlines(lines);
    LspciNameFirstLine(Unlines(lines), k);
  }

  /** The trimmed `nvidia-smi` name, when the tool ran successfully and printed one. */
  function SmiName(smi: Option<string>): Option<string> {
    if smi.Some? && Trim(smi.value) != [] then Some(Trim(smi.value)) else None
  }

  const UNKNOWN_GPU := "Unknown GPU"

  /** The GPU name after identify_gpu, from the name it had before, the
      output of `nvidia-smi --query-gpu=name` (None when it could not be
      run or failed) and that of `lspci` (None when it could not be run). */
  function ResolveGpuName(current: string, smi: Option<string>, lspci: Option<string>): (r: string)
    ensures r != []
    ensures SmiName(smi).Some? ==> r == SmiName(smi).value
    ensures SmiName(smi).None? && LspciName(lspci).Some? ==> r == LspciName(lspci).value
    ensures SmiName(smi).None? && LspciName(lspci).None? ==> r == if current == [] then UNKNOWN_GPU else current
  {
    match SmiName(smi)
    case Some(n) => n
    case None =>
      match LspciName(lspci)
      case Some(n) => n
      case None => if current == [] then UNKNOWN_GPU else current
  }

  /** Identification runs twice at start-up (src/main.rs:27 and :75):
      running it a second time on the same tool output changes nothing. */
  lemma ResolveGpuNameTwice(current: string, smi: Option<string>, lspci: Option<string>)
    ensures ResolveGpuName(ResolveGpuName(current, smi, lspci), smi, lspci) == ResolveGpuName(current, smi, lspci)
  {
  }

  /** A name found by either tool replaces the old one; `Unknown GPU` is
      written only over an empty name, and a known name is kept when no
      tool yields one. */
  lemma ResolveGpuNameKeepsKnown(current: string, smi: Option<string>, lspci: Option<string>)
    requires current != []
    ensures var r := ResolveGpuName(current, smi, lspci);
      r == current || SmiName(smi) == Some(r) || LspciName(lspci) == Some(r)
    ensures ResolveGpuName(current, smi, lspci) == UNKNOWN_GPU ==> current == UNKNOWN_GPU || SmiName(smi).Some? || LspciName(lspci).Some?
  {
  }

  // ---------------------------------------------------------------------
  // GPU readings
  // ---------------------------------------------------------------------

  /** The four GPU readings of the record, as text. */
  datatype GpuReadings = GpuReadings(edge: string, hotspot: string, memory: string, fan: string)

  const CLEARED := GpuReadings("", "", "", "")

  // ---------------------------------------------------------------------
  // The `nvidia-smi` CSV line (src/sensors.rs:183-205)
  // ---------------------------------------------------------------------

  /** The comma-separated fields of `nvidia-smi --query-gpu=temperature.gpu,fan.speed` output. */
  function NvidiaFields(out: string): (fs: seq<string>)
    ensures |fs| >= 1
  {
    Split(Trim(out), ',')
  }

  /** The readings after a successful `nvidia-smi` run: the edge temperature
      is always the trimmed first field; the fan becomes `<second> RPM` only
      when there is a second field. */
  function ApplyNvidia(r: GpuReadings, smi: Option<string>): (r': GpuReadings)
    ensures r'.hotspot == r.hotspot && r'.memory == r.memory
    ensures smi.None? ==> r' == r
  {
    match smi
    case None => r
    case Some(out) =>
      var fs := NvidiaFields(out);
      var r1 := r.(edge := Trim(fs[0]));
      if |fs| > 1 then r1.(fan := Trim(fs[1]) + " RPM") else r1
  }

  /** The edge reading is the trimmed text before the first comma of the
      trimmed output (all of it when there is none). */
  lemma NvidiaEdgeIsFirstField(r: GpuReadings, out: string)
    ensures var t := Trim(out);
      exists i :: 0 <= i <= |t| && ApplyNvidia(r, Some(out)).edge == Trim(t[..i])
                  && ',' !in t[..i] && (i == |t| || t[i] == ',')
  {
    var t := Trim(out);
    var fs := Split(t, ',');
    var i := |fs[0]|;
    assert ApplyNvidia(r, Some(out)).edge == Trim(fs[0]);
    assert i <= |t| && t[..i] == fs[0] && ',' !in fs[0] && (i == |t| || t[i] == ',') by {
      SplitSound(t, ',');
    }
  }

  /** The fan reading is replaced exactly when the trimmed output has a
      comma, by the trimmed second field followed by ` RPM`. */
  lemma NvidiaFanNeedsComma(r: GpuReadings, out: string)
    ensures ',' !in Trim(out) ==> ApplyNvidia(r, Some(out)).fan == r.fan
    ensures ',' in Trim(out) ==>
      |NvidiaFields(out)| > 1 && ApplyNvidia(r, Some(out)).fan == Trim(NvidiaFields(out)[1]) + " RPM"
  {
    SplitSound(Trim(out), ',');
  }

  // ---------------------------------------------------------------------
  // The `amdgpu` section scanner (src/sensors.rs:207-260)
  // ---------------------------------------------------------------------

  /** A line whose left-trimmed text starts with `amdgpu-pci-`: the header of a Radeon block. */
  predicate IsHeader(line: string) {
    StartsWith(TrimStart(line), "amdgpu-pci-")
  }

  /** The test that ends an open section, on the left-trimmed line `t`, as
      src/sensors.rs:228-233 writes it: another chip's header. */
  predicate ClosesSection(t: string) {
    !StartsWith(t, "amdgpu-pci-") && t != [] && t[0] != ' ' && t[0] != '\t'
    && (Contains(t, "-isa-") || Contains(t, "-pci-") || Contains(t, "-i2c-"))
  }

  /** `trim_start_matches('+')`: `s` without its leading `+` signs. */
  function StripPluses(s: string): (r: string)
    ensures |r| <= |s|
  {
    if s != [] && s[0] == '+' then StripPluses(s[1..]) else s
  }

  /** What is stripped is a run of `+` signs, and what is left is the rest
      of `s`, which does not start with one. */
  lemma {:induction false} StripPlusesSound(s: string)
    ensures var r := StripPluses(s);
      r == s[|s| - |r|..] && (forall k :: 0 <= k < |s| - |r| ==> s[k] == '+')
      && (r != [] ==> r[0] != '+')
  {
    if s != [] && s[0] == '+' {
      var r := StripPluses(s[1..]);
      StripPlusesSound(s[1..]);
      assert forall k :: 1 <= k < |s| - |r| ==> s[k] == s[1..][k - 1];
    }
  }

  /** The whitespace-separated words of a line, after `trim_start`. */
  function Words(line: string): seq<string> {
    SplitWhitespace(TrimStart(line))
  }

  /** A reading line of an open section: its first word picks the field by
      prefix (`junction`, `edge`, `mem`, then `fan`), and its second word is
      the value, without leading `+` for temperatures and followed by ` RPM`
      for the fan. Lines of fewer than two words change nothing. */
  function ApplyLabel(r: GpuReadings, parts: seq<string>): (r': GpuReadings)
    ensures |parts| < 2 ==> r' == r
    ensures r'.hotspot == r.hotspot || r'.hotspot == StripPluses(parts[1])
    ensures r'.edge == r.edge || r'.edge == StripPluses(parts[1])
    ensures r'.memory == r.memory || r'.memory == StripPluses(parts[1])
    ensures r'.fan == r.fan || r'.fan == parts[1] + " RPM"
  {
    if parts == [] then r
    else
      var lbl := parts[0];
      if StartsWith(lbl, "junction") && |parts| >= 2 then r.(hotspot := StripPluses(parts[1]))
      else if StartsWith(lbl, "edge") && |parts| >= 2 then r.(edge := StripPluses(parts[1]))
      else if StartsWith(lbl, "mem") && |parts| >= 2 then r.(memory := StripPluses(parts[1]))
      else if StartsWith(lbl, "fan") && |parts| >= 2 then r.(fan := parts[1] + " RPM")
      else r
  }

  /** The four labels are told apart by their first letter, so each reading
      line sets exactly the field its label names, and a line whose label is
      none of them sets nothing. */
  lemma ApplyLabelByLabel(r: GpuReadings, parts: seq<string>)
    requires |parts| >= 2
    ensures StartsWith(parts[0], "junction") ==> ApplyLabel(r, parts) == r.(hotspot := StripPluses(parts[1]))
    ensures StartsWith(parts[0], "edge") ==> ApplyLabel(r, parts) == r.(edge := StripPluses(parts[1]))
    ensures StartsWith(parts[0], "mem") ==> ApplyLabel(r, parts) == r.(memory := StripPluses(parts[1]))
    ensures StartsWith(parts[0], "fan") ==> ApplyLabel(r, parts) == r.(fan := parts[1] + " RPM")
    ensures (!StartsWith(parts[0], "junction") && !StartsWith(parts[0], "edge") &&
             !StartsWith(parts[0], "mem") && !StartsWith(parts[0], "fan")) ==> ApplyLabel(r, parts) == r
  {
    var w := parts[0];
    if StartsWith(w, "edge") || StartsWith(w, "mem") || StartsWith(w, "fan") {
      assert w[0] == w[..1][0] && w[0] != 'j';
      assert !StartsWith(w, "junction");
    }
    if StartsWith(w, "mem") || StartsWith(w, "fan") {
      assert w[0] != 'e' && !StartsWith(w, "edge");
    }
    if StartsWith(w, "fan") {
      assert w[0] != 'm' && !StartsWith(w, "mem");
    }
  }

  /** The scanner's state: whether it is inside an `amdgpu` section, and the readings so far. */
  datatype ScanState = ScanState(inSection: bool, readings: GpuReadings)

  /** One line of the scan. A header clears the four readings and opens the
      section; in an open section a closing line closes it and is not
      parsed, and any other line is parsed for a reading; outside the
      section nothing changes. */
  function Step(st: ScanState, line: string): (st': ScanState)
    ensures IsHeader(line) ==> st' == ScanState(true, CLEARED)
    ensures !IsHeader(line) && (!st.inSection || ClosesSection(TrimStart(line))) ==> st' == ScanState(false, st.readings)
    ensures !IsHeader(line) && st.inSection && !ClosesSection(TrimStart(line)) ==>
      st' == ScanState(true, ApplyLabel(st.readings, Words(line)))
  {
    var t := TrimStart(line);
    if StartsWith(t, "amdgpu-pci-") then ScanState(true, CLEARED)
    else
      var stillIn := st.inSection && !ClosesSection(t);
      if stillIn then ScanState(true, ApplyLabel(st.readings, SplitWhitespace(t)))
      else ScanState(false, st.readings)
  }

  /** The state after scanning `lines` in order from `st`. */
  function Scan(st: ScanState, lines: seq<string>): ScanState {
    if lines == [] then st else Step(Scan(st, lines[..|lines| - 1]), lines[|lines| - 1])
  }

  /** Scanning one more line is one more step. */
  lemma ScanSnoc(st: ScanState, lines: seq<string>, i: nat)
    requires i < |lines|
    ensures Scan(st, lines[..i + 1]) == Step(Scan(st, lines[..i]), lines[i])
  {
    assert lines[..i + 1][..i] == lines[..i];
  }

  lemma {:induction false} ScanAppend(st: ScanState, a: seq<string>, b: seq<string>)
    ensures Scan(st, a + b) == Scan(Scan(st, a), b)
    decreases |b|
  {
    if b == [] {
      assert a + b == a;
    } else {
      assert (a + b)[..|a + b| - 1] == a + b[..|b| - 1];
      ScanAppend(st, a, b[..|b| - 1]);
    }
  }

  /** Everything before the last header is forgotten: the scan ends as a
      scan of the lines after it from an open section with cleared readings. */
  lemma ScanAfterHeader(st: ScanState, lines: seq<string>, k: nat)
    requires k < |lines| && IsHeader(lines[k])
    ensures Scan(st, lines) == Scan(ScanState(true, CLEARED), lines[k + 1..])
  {
    var pre := lines[..k + 1];
    assert lines == pre + lines[k + 1..];
    ScanAppend(st, pre, lines[k + 1..]);
    assert pre[|pre| - 1] == lines[k];
    assert Scan(st, pre) == Step(Scan(st, pre[..k]), lines[k]);
    assert Step(Scan(st, pre[..k]), lines[k]) == ScanState(true, CLEARED);
  }

  /** Output without an `amdgpu` header leaves the readings as they were. */
  lemma {:induction false} ScanWithoutHeader(r: GpuReadings, lines: seq<string>)
    requires forall i :: 0 <= i < |lines| ==> !IsHeader(lines[i])
    ensures Scan(ScanState(false, r), lines) == ScanState(false, r)
  {
    if lines != [] {
      ScanWithoutHeader(r, lines[..|lines| - 1]);
    }
  }

  /** The indentation tests of the close test can never fail, because the
      line has been left-trimmed: any non-header line holding `-isa-`,
      `-pci-` or `-i2c-` closes the section, however far it is indented. */
  lemma CloseTestIgnoresIndentation(line: string)
    requires !IsHeader(line)
    ensures ClosesSection(TrimStart(line)) <==>
      var t := TrimStart(line);
      Contains(t, "-isa-") || Contains(t, "-pci-") || Contains(t, "-i2c-")
  {
    TrimStartSound(line);
  }

  /** `v` is the value of the second word of `line`, as a temperature or as a fan speed. */
  ghost predicate ReadFrom(line: string, v: string) {
    |Words(line)| >= 2 && (v == StripPluses(Words(line)[1]) || v == Words(line)[1] + " RPM")
  }

  ghost predicate ReadFromSomeLine(lines: seq<string>, v: string) {
    exists i :: 0 <= i < |lines| && ReadFrom(lines[i], v)
  }

  /** Each reading after a step is the one before it, empty, or read from the line. */
  ghost predicate Explained(before: string, after: string, line: string) {
    after == before || after == "" || ReadFrom(line, after)
  }

  lemma StepReadingsOrigin(st: ScanState, line: string)
    ensures var r := st.readings;
      var r' := Step(st, line).readings;
      Explained(r.edge, r'.edge, line) && Explained(r.hotspot, r'.hotspot, line)
      && Explained(r.memory, r'.memory, line) && Explained(r.fan, r'.fan, line)
  {
  }

  /** Each reading after a scan is the one it started with, empty, or read from one of the lines. */
  ghost predicate ExplainedBy(before: string, after: string, lines: seq<string>) {
    after == before || after == "" || ReadFromSomeLine(lines, after)
  }

  lemma {:induction false} ScanReadingsOrigin(st: ScanState, lines: seq<string>)
    ensures var r := Scan(st, lines).readings;
      ExplainedBy(st.readings.edge, r.edge, lines) && ExplainedBy(st.readings.hotspot, r.hotspot, lines)
      && ExplainedBy(st.readings.memory, r.memory, lines) && ExplainedBy(st.readings.fan, r.fan, lines)
  {
    if lines != [] {
      var n := |lines| - 1;
      var init := lines[..n];
      ScanReadingsOrigin(st, init);
      var mid := Scan(st, init);
      StepReadingsOrigin(mid, lines[n]);
      assert Scan(st, lines) == Step(mid, lines[n]);
      var r0, r1, r := st.readings, mid.readings, Step(mid, lines[n]).readings;
      ExplainedChain(r0.edge, r1.edge, r.edge, lines);
      ExplainedChain(r0.hotspot, r1.hotspot, r.hotspot, lines);
      ExplainedChain(r0.memory, r1.memory, r.memory, lines);
      ExplainedChain(r0.fan, r1.fan, r.fan, lines);
    }
  }

  lemma ExplainedChain(before: string, mid: string, after: string, lines: seq<string>)
    requires lines != []
    requires ExplainedBy(before, mid, lines[..|lines| - 1])
    requires Explained(mid, after, lines[|lines| - 1])
    ensures ExplainedBy(before, after, lines)
  {
    var n := |lines| - 1;
    if ReadFromSomeLine(lines[..n], mid) {
      var i :| 0 <= i < n && ReadFrom(lines[..n][i], mid);
      assert lines[..n][i] == lines[i];
    }
    if ReadFrom(lines[n], after) {
      assert ReadFromSomeLine(lines, after);
    }
  }

  /** After a scan over output with an `amdgpu` header, each of the four
      readings is empty or was read from a line after the last header. */
  lemma RadeonReadingsAfterLastHeader(st: ScanState, lines: seq<string>, k: nat)
    requires k < |lines| && IsHeader(lines[k])
    requires forall i :: k < i < |lines| ==> !IsHeader(lines[i])
    ensures var r := Scan(st, lines).readings;
      var after := lines[k + 1..];
      (r.edge == "" || ReadFromSomeLine(after, r.edge))
      && (r.hotspot == "" || ReadFromSomeLine(after, r.hotspot))
      && (r.memory == "" || ReadFromSomeLine(after, r.memory))
      && (r.fan == "" || ReadFromSomeLine(after, r.fan))
  {
    ScanAfterHeader(st, lines, k);
    ScanReadingsOrigin(ScanState(true, CLEARED), lines[k + 1..]);
  }

  // ---------------------------------------------------------------------
  // Vendor dispatch (src/sensors.rs:262-271)
  // ---------------------------------------------------------------------

  /** The NVIDIA path: the lower-cased name contains `nvidia`. */
  predicate IsNvidia(name: string) {
    Contains(ToLower(name), "nvidia")
  }

  /** The Radeon path: the name contains `Radeon`, or the sensors output mentions `amdgpu`. */
  predicate UsesRadeonScan(name: string, sensors: string) {
    Contains(name, "Radeon") || Contains(sensors, "amdgpu")
  }

  /** The readings after update_gpu_info: two independent tests, the NVIDIA
      parse first and then the Radeon scan over the same readings. */
  function Dispatch(name: string, sensors: string, smi: Option<string>, r: GpuReadings): (r': GpuReadings)
    ensures !IsNvidia(name) && !UsesRadeonScan(name, sensors) ==> r' == r
    ensures IsNvidia(name) && !UsesRadeonScan(name, sensors) ==> r' == ApplyNvidia(r, smi)
    ensures !IsNvidia(name) && UsesRadeonScan(name, sensors) ==> r' == Scan(ScanState(false, r), Lines(sensors)).readings
    ensures IsNvidia(name) && UsesRadeonScan(name, sensors) ==>
      r' == Scan(ScanState(false, ApplyNvidia(r, smi)), Lines(sensors)).readings
  {
    var r1 := if IsNvidia(name) then ApplyNvidia(r, smi) else r;
    if UsesRadeonScan(name, sensors) then Scan(ScanState(false, r1), Lines(sensors)).readings else r1
  }

  /** When the Radeon scan runs over output with an `amdgpu` header, what the
      NVIDIA parse wrote and what the readings held before are both lost:
      the result depends on the sensors output alone. */
  lemma RadeonOverridesNvidia(name: string, sensors: string, smi1: Option<string>, smi2: Option<string>,
                              r1: GpuReadings, r2: GpuReadings, k: nat)
    requires UsesRadeonScan(name, sensors)
    requires k < |Lines(sensors)| && IsHeader(Lines(sensors)[k])
    ensures Dispatch(name, sensors, smi1, r1) == Dispatch(name, sensors, smi2, r2)
  {
    var ls := Lines(sensors);
    ScanAfterHeader(ScanState(false, if IsNvidia(name) then ApplyNvidia(r1, smi1) else r1), ls, k);
    ScanAfterHeader(ScanState(false, if IsNvidia(name) then ApplyNvidia(r2, smi2) else r2), ls, k);
  }

  /** The vendor test ignores case: a name holding `nvidia` in any mix of
      upper and lower case takes the NVIDIA path. */
  lemma IsNvidiaAnyCase(name: string, i: nat)
    requires i + 6 <= |name| && ToLower(name[i..i + 6]) == "nvidia"
    ensures IsNvidia(name)
  {
    assert OccursAt(ToLower(name), "nvidia", i) by {
      ToLowerAt(name);
      ToLowerAt(name[i..i + 6]);
      assert ToLower(name)[i..i + 6] == ToLower(name[i..i + 6]);
    }
    ContainsSound(ToLower(name), "nvidia");
  }
}
