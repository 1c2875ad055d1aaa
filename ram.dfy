/** Memory figures from the output of `free -m` (src/sensors.rs, update_ram).
    Sizes are in mebibytes there and in gibibytes here; values are exact
    reals (f32 rounding is not modelled). */
module Ram {
  import opened Wrappers
  import opened Text
  import opened Numbers

  /** The five memory fields of the sensor record, in GiB and percent. */
  datatype RamReadings = RamReadings(total: real, used: real, free: real, available: real, percent: real)

  /** The row of physical memory: `Mem:`, or `Mem.:` as some locales print it. */
  predicate IsMemLine(line: string) {
    StartsWith(line, "Mem:") || StartsWith(line, "Mem.:")
  }

  function MemLineOf(line: string): Option<string> {
    if IsMemLine(line) then Some(line) else None
  }

  /** A field in MiB as GiB, or `current` when it does not parse as f32. */
  function Gibibytes(tok: string, current: real): real {
    match ParseF32(tok)
    case Some(x) => x / 1024.0
    case None => current
  }

  /** Gibibytes for a token whose parse is `x`. */
  lemma GibibytesOfParse(tok: string, current: real, x: Option<real>)
    requires x == ParseF32(tok)
    ensures Gibibytes(tok, current) == if x.Some? then x.value / 1024.0 else current
  {
  }

  /** The readings after the memory row `line`: with at least seven fields,
      total, used, free and available are the fields at 1, 2, 3 and 6, each
      kept when it does not parse; the percentage is used over total,
      computed only when the (new or kept) total is positive. A shorter row
      changes nothing. */
  function ApplyMemLine(r: RamReadings, line: string): (n: RamReadings)
    ensures |SplitWhitespace(line)| < 7 ==> n == r
  {
    var parts := SplitWhitespace(line);
    if |parts| < 7 then r
    else
      var total := Gibibytes(parts[1], r.total);
      var used := Gibibytes(parts[2], r.used);
      var free := Gibibytes(parts[3], r.free);
      var available := Gibibytes(parts[6], r.available);
      var percent := if total > 0.0 then used / total * 100.0 else r.percent;
      RamReadings(total, used, free, available, percent)
  }

  /** The percentage is used over total whenever a memory row sets a
      positive total, and is kept otherwise. */
  lemma ApplyMemLinePercent(r: RamReadings, line: string)
    ensures var n := ApplyMemLine(r, line);
      (n.total <= 0.0 ==> n.percent == r.percent)
      && (n.total > 0.0 && |SplitWhitespace(line)| >= 7 ==> n.percent == n.used / n.total * 100.0)
  {
  }

  /** ApplyMemLine field by field, for a row of at least seven fields. */
  lemma ApplyMemLineFields(r: RamReadings, line: string, n: RamReadings)
    requires var parts := SplitWhitespace(line);
      |parts| >= 7 && n.total == Gibibytes(parts[1], r.total) && n.used == Gibibytes(parts[2], r.used)
      && n.free == Gibibytes(parts[3], r.free) && n.available == Gibibytes(parts[6], r.available)
      && n.percent == (if n.total > 0.0 then n.used / n.total * 100.0 else r.percent)
    ensures ApplyMemLine(r, line) == n
  {
  }

  /** In a row of at least seven fields, total, used, free and available
      are each taken from their own field (1, 2, 3 and 6), independently of
      the others: a field that parses as f32 gives its MiB value in GiB,
      and one that does not leaves that reading as it was. */
  lemma ApplyMemLineByField(r: RamReadings, line: string)
    requires |SplitWhitespace(line)| >= 7
    ensures var parts, n := SplitWhitespace(line), ApplyMemLine(r, line);
      (ParseF32(parts[1]).Some? ==> n.total == ParseF32(parts[1]).value / 1024.0)
      && (ParseF32(parts[1]).None? ==> n.total == r.total)
      && (ParseF32(parts[2]).Some? ==> n.used == ParseF32(parts[2]).value / 1024.0)
      && (ParseF32(parts[2]).None? ==> n.used == r.used)
      && (ParseF32(parts[3]).Some? ==> n.free == ParseF32(parts[3]).value / 1024.0)
      && (ParseF32(parts[3]).None? ==> n.free == r.free)
      && (ParseF32(parts[6]).Some? ==> n.available == ParseF32(parts[6]).value / 1024.0)
      && (ParseF32(parts[6]).None? ==> n.available == r.available)
      && n.percent == (if n.total > 0.0 then n.used / n.total * 100.0 else r.percent)
  {
  }

  /** The readings after running `free -m`: the first memory row decides;
      when the command cannot run (None) or prints no memory row, nothing changes. */
  function RamAfter(r: RamReadings, free: Option<string>): RamReadings {
    match free
    case None => r
    case Some(out) =>
      match FirstSome(Lines(out), MemLineOf)
      case Some(line) => ApplyMemLine(r, line)
      case None => r
  }

  /** The row `free -m` prints: a label, then whole numbers of MiB. */
  function MemRow(tag: string, ns: seq<nat>): string {
    tag + Spaced(ns)
  }

  /** A memory row of at least six whole numbers is read field by field:
      the first three and the sixth number, in GiB, and used over total as
      the percentage when the total is positive. */
  lemma ApplyMemRow(r: RamReadings, tag: string, ns: seq<nat>)
    requires tag == "Mem:" || tag == "Mem.:"
    requires |ns| >= 6
    ensures ApplyMemLine(r, MemRow(tag, ns)) ==
      RamReadings(ns[0] as real / 1024.0, ns[1] as real / 1024.0, ns[2] as real / 1024.0,
                  ns[5] as real / 1024.0,
                  if ns[0] > 0 then ns[1] as real / ns[0] as real * 100.0 else r.percent)
  {
    MemRowFields(tag, ns);
    ApplyMemNumerals(r, MemRow(tag, ns), ns[0], ns[1], ns[2], ns[5]);
  }

  /** A row whose fields 1, 2, 3 and 6 are numerals of t, u, f and a. */
  lemma ApplyMemNumerals(r: RamReadings, line: string, t: nat, u: nat, f: nat, a: nat)
    requires var parts := SplitWhitespace(line);
      |parts| >= 7 && parts[1] == Decimal(t) && parts[2] == Decimal(u)
      && parts[3] == Decimal(f) && parts[6] == Decimal(a)
    ensures ApplyMemLine(r, line) ==
      RamReadings(t as real / 1024.0, u as real / 1024.0, f as real / 1024.0, a as real / 1024.0,
                  if t > 0 then u as real / t as real * 100.0 else r.percent)
  {
    var n := RamReadings(t as real / 1024.0, u as real / 1024.0, f as real / 1024.0, a as real / 1024.0,
                         if t > 0 then u as real / t as real * 100.0 else r.percent);
    ParseF32Decimal(t);
    ParseF32Decimal(u);
    ParseF32Decimal(f);
    ParseF32Decimal(a);
    ApplyMemLineByField(r, line);
    PercentInGibibytes(t, u, r.percent, n);
  }

  /** The percentage computed from the sizes in GiB is the one of the sizes in MiB. */
  lemma PercentInGibibytes(t: nat, u: nat, current: real, n: RamReadings)
    requires n.total == t as real / 1024.0 && n.used == u as real / 1024.0
    requires n.percent == if t > 0 then u as real / t as real * 100.0 else current
    ensures n.percent == if n.total > 0.0 then n.used / n.total * 100.0 else current
  {
    if t > 0 {
      RatioInGibibytes(u as real, t as real);
    }
  }

  /** Converting both sizes to GiB keeps their ratio. */
  lemma RatioInGibibytes(u: real, t: real)
    requires t > 0.0
    ensures (u / 1024.0) / (t / 1024.0) == u / t
  {
  }

  /** The fields of a memory row: its label, then the numerals. */
  lemma MemRowFields(tag: string, ns: seq<nat>)
    requires tag == "Mem:" || tag == "Mem.:"
    requires |ns| >= 6
    ensures var parts := SplitWhitespace(MemRow(tag, ns));
      |parts| == |ns| + 1 && parts[1] == Decimal(ns[0]) && parts[2] == Decimal(ns[1])
      && parts[3] == Decimal(ns[2]) && parts[6] == Decimal(ns[5])
  {
    var rest := Spaced(ns);
    assert rest[0] == ' ';
    assert NoWhitespace(tag) by {
      forall i | 0 <= i < |tag| ensures !IsWhitespace(tag[i]) {
        assert tag[i] in "Mem.:";
      }
    }
    SplitWhitespaceWord(tag, rest);
    SplitSpaced(ns);
  }

  /** A row of `free -m` for 32000 MiB total, 16000 used, 8000 free and
      18000 available, as the command prints it: 31.25 GiB, of which 15.625
      used (50 percent), 7.8125 free and 17.578125 available. */
  lemma FreeRowExample(r: RamReadings, tag: string, ns: seq<nat>)
    requires tag == "Mem:" && ns == [32000, 16000, 8000, 2000, 6000, 18000]
    ensures ApplyMemLine(r, MemRow(tag, ns)) == RamReadings(31.25, 15.625, 7.8125, 17.578125, 50.0)
  {
    ApplyMemRow(r, tag, ns);
  }

  /** With one number too many before `available`, the seventh field is the
      one read as available: 6000 MiB here, not 18000. */
  lemma ExtraFieldExample(r: RamReadings, tag: string, ns: seq<nat>)
    requires tag == "Mem:" && ns == [32000, 16000, 8000, 2000, 0, 6000, 18000]
    ensures ApplyMemLine(r, MemRow(tag, ns)) == RamReadings(31.25, 15.625, 7.8125, 5.859375, 50.0)
  {
    ApplyMemRow(r, tag, ns);
  }

  /** The first memory row of the output decides, whatever rows follow. */
  lemma RamAfterFirstMemLine(r: RamReadings, lines: seq<string>, k: nat)
    requires forall j :: 0 <= j < |lines| ==> IsLine(lines[j])
    requires k < |lines| && IsMemLine(lines[k])
    requires forall j :: 0 <= j < k ==> !IsMemLine(lines[j])
    ensures RamAfter(r, Some(Unlines(lines))) == ApplyMemLine(r, lines[k])
  {
    LinesUnlines(lines);
    assert NoneBefore(lines, MemLineOf, k);
    FirstSomeAt(lines, MemLineOf, k);
  }

  /** Output without a memory row leaves the readings as they were. */
  lemma RamAfterNoMemLine(r: RamReadings, lines: seq<string>)
    requires forall j :: 0 <= j < |lines| ==> IsLine(lines[j])
    requires forall j :: 0 <= j < |lines| ==> !IsMemLine(lines[j])
    ensures RamAfter(r, Some(Unlines(lines))) == r
  {
    LinesUnlines(lines);
    FirstSomeNone(lines, MemLineOf);
  }
}
