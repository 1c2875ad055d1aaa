/** The fixed regular expressions of src/sensors.rs:6-31, each matched by a
    small matcher for its shape, with the regex crate's semantics: the
    leftmost match wins, `\s` is Unicode White_Space (newlines included),
    `[0-9.]+` and `[0-9]+` are greedy, and `.` matches anything but `\n`. */
module Patterns {
  import opened Wrappers
  import opened Text
  import opened Numbers

  /** The three shapes the table uses. */
  datatype Pattern =
      /** `<name>:\s+\+([0-9.]+)` */
    | Reading(name: string)
      /** `<name>:\s+([0-9]+)\s+RPM` */
    | Rpm(name: string)
      /** `<chip>.*?<name>:\s+([0-9]+)\s+RPM`; with `dotAll` the `.` also matches `\n`. */
    | ChipRpm(chip: string, name: string, dotAll: bool)

  const TCTL := Reading("Tctl")
  const TDIE := Reading("Tdie")
  const PACKAGE := Reading("Package id 0")
  const CORE0 := Reading("Core 0")
  const NVME := Reading("Composite")
  const CPU_FAN := Rpm("fan2")
  const CHASSIS1 := Rpm("fan3")
  /** The two chassis-fan-2 patterns as written: chip header and `fan1:` on one line. */
  const CHASSIS2_A := ChipRpm("nct6799-isa-0290", "fan1", false)
  const CHASSIS2_B := ChipRpm("nct6798-isa-0290", "fan1", false)
  /** The same patterns with `.` matching line breaks, so that the `fan1:` line
      of the chip's block, printed below its header, is reached. */
  const CHASSIS2_A_DOTALL := ChipRpm("nct6799-isa-0290", "fan1", true)
  const CHASSIS2_B_DOTALL := ChipRpm("nct6798-isa-0290", "fan1", true)

  /** Where a match starts and ends in the text, where capture group 1
      starts, and what it holds. */
  datatype Match = Match(start: nat, end: nat, at: nat, capture: string)

  predicate IsDigitOrDot(c: char) {
    IsDigit(c) || c == '.'
  }

  /** The character classes the patterns repeat: `\s`, `[0-9]` and `[0-9.]`. */
  datatype CharClass = Space | Digit | DigitOrDot

  predicate InClass(c: char, p: CharClass) {
    match p
    case Space => IsWhitespace(c)
    case Digit => IsDigit(c)
    case DigitOrDot => IsDigitOrDot(c)
  }

  /** Every character of `s` in [lo, hi) is of class `p`. */
  predicate AllIn(s: string, lo: nat, hi: nat, p: CharClass) {
    forall k :: lo <= k < hi ==> k < |s| && InClass(s[k], p)
  }

  /** The length of the longest run of characters of class `p` from index `i`. */
  function Run(s: string, i: nat, p: CharClass): (n: nat)
    requires i <= |s|
    ensures i + n <= |s|
    decreases |s| - i
  {
    if i == |s| || !InClass(s[i], p) then 0 else 1 + Run(s, i + 1, p)
  }

  /** The run is made of characters satisfying `p` and stops at the end of
      the text or at the first character that does not. */
  lemma {:induction false} RunSound(s: string, i: nat, p: CharClass)
    requires i <= |s|
    ensures var n := Run(s, i, p);
      AllIn(s, i, i + n, p) && (i + n == |s| || !InClass(s[i + n], p))
    decreases |s| - i
  {
    if i < |s| && InClass(s[i], p) {
      RunSound(s, i + 1, p);
    }
  }

  /** A run that is followed by a character outside the class is that long. */
  lemma {:induction false} RunEndsAt(s: string, i: nat, p: CharClass, n: nat)
    requires i + n <= |s|
    requires AllIn(s, i, i + n, p)
    requires i + n == |s| || !InClass(s[i + n], p)
    ensures Run(s, i, p) == n
    decreases n
  {
    if n > 0 {
      RunEndsAt(s, i + 1, p, n - 1);
    }
  }

  /** `<name>:\s+\+([0-9.]+)` at index `i`. */
  function ReadingAt(s: string, i: nat, name: string): Option<Match>
    requires i <= |s|
  {
    var a := i + |name| + 1;
    if !OccursAt(s, name + ":", i) then None
    else
      var k := a + Run(s, a, Space);
      if k == a || k == |s| || s[k] != '+' then None
      else
        var e := k + 1 + Run(s, k + 1, DigitOrDot);
        if e == k + 1 then None else Some(Match(i, e, k + 1, s[k + 1..e]))
  }

  /** Where capture group 1 of a fan reading starts and ends, and where `RPM` starts. */
  datatype Spans = Spans(at: nat, end: nat, rpm: nat)

  /** `<name>:\s+([0-9]+)\s+RPM` at index `j`. */
  function RpmSpans(s: string, j: nat, name: string): (r: Option<Spans>)
    requires j <= |s|
    ensures r.Some? ==> j < r.value.at < r.value.end < r.value.rpm && r.value.rpm + 3 <= |s|
  {
    var a := j + |name| + 1;
    if !OccursAt(s, name + ":", j) then None
    else
      var c := a + Run(s, a, Space);
      var e := c + Run(s, c, Digit);
      var f := e + Run(s, e, Space);
      if c == a || e == c || f == e || !OccursAt(s, "RPM", f) then None
      else Some(Spans(c, e, f))
  }

  /** The fan-speed match at `j`, for a match that began at `start`. */
  function RpmAt(s: string, start: nat, j: nat, name: string): (r: Option<Match>)
    requires j <= |s|
    ensures r.Some? ==> r.value.start == start && j < r.value.end <= |s| && r.value.capture != []
  {
    var sp := RpmSpans(s, j, name);
    if sp.None? then None
    else Some(Match(start, sp.value.rpm + 3, sp.value.at, s[sp.value.at..sp.value.end]))
  }

  /** The lazy `.*?` of a chip pattern followed by `<name>:\s+([0-9]+)\s+RPM`:
      the fan reading at the first index from `j` on that starts one,
      reached without crossing a `\n` unless `dotAll`, reported as part of
      a match that began at `start`. */
  function Lazy(s: string, start: nat, name: string, j: nat, dotAll: bool): (r: Option<Match>)
    requires j <= |s|
    ensures r.Some? ==> r.value.start == start && j < r.value.end <= |s| && r.value.capture != []
    decreases |s| - j
  {
    match RpmAt(s, start, j, name)
    case Some(x) => Some(x)
    case None =>
      if j < |s| && (dotAll || s[j] != '\n') then Lazy(s, start, name, j + 1, dotAll) else None
  }

  /** The match of `p` that the regex engine prefers among those starting at `i`. */
  function MatchAt(s: string, i: nat, p: Pattern): (r: Option<Match>)
    requires i <= |s|
    ensures r.Some? ==> r.value.start == i && i < r.value.end <= |s| && r.value.capture != []
  {
    match p
    case Reading(name) => ReadingAt(s, i, name)
    case Rpm(name) => RpmAt(s, i, i, name)
    case ChipRpm(chip, name, dotAll) =>
      if OccursAt(s, chip, i) then Lazy(s, i, name, i + |chip|, dotAll) else None
  }

  /** The matches of one pattern in one text, by the index they start at. */
  function Matcher(s: string, p: Pattern): nat -> Option<Match> {
    (i: nat) => if i <= |s| then MatchAt(s, i, p) else None
  }

  /** `m` yields, at each index of a text of length `n`, a match that starts
      there and ends after it. */
  ghost predicate IsMatcher(n: nat, m: nat -> Option<Match>) {
    forall i: nat :: m(i).Some? ==> m(i).value.start == i && i < m(i).value.end <= n
  }

  lemma MatcherIsMatcher(s: string, p: Pattern)
    ensures IsMatcher(|s|, Matcher(s, p))
  {
  }

  /** `m` yields no match at any index in [lo, hi). */
  ghost predicate NoneIn(m: nat -> Option<Match>, lo: nat, hi: nat) {
    forall i: nat :: lo <= i < hi ==> m(i).None?
  }

  /** The leftmost match at index `from` or later. */
  function Leftmost(n: nat, m: nat -> Option<Match>, from: nat): (r: Option<Match>)
    requires from <= n && IsMatcher(n, m)
    ensures r.Some? ==> from <= r.value.start <= n && m(r.value.start) == r
    decreases n - from
  {
    match m(from)
    case Some(x) => Some(x)
    case None => if from == n then None else Leftmost(n, m, from + 1)
  }

  /** Nothing matches between `from` and the leftmost match, nor anywhere
      from `from` on when there is none. */
  lemma {:induction false} LeftmostSound(n: nat, m: nat -> Option<Match>, from: nat)
    requires from <= n && IsMatcher(n, m)
    ensures var r := Leftmost(n, m, from);
      (r.Some? ==> NoneIn(m, from, r.value.start)) && (r.None? ==> NoneIn(m, from, n + 1))
    decreases n - from
  {
    if m(from).None? && from < n {
      LeftmostSound(n, m, from + 1);
    }
  }

  /** The successive leftmost matches, each search resuming where the
      previous match ended. */
  function AllMatches(n: nat, m: nat -> Option<Match>, from: nat): seq<Match>
    requires from <= n && IsMatcher(n, m)
    decreases n - from
  {
    match Leftmost(n, m, from)
    case None => []
    case Some(x) => [x] + AllMatches(n, m, x.end)
  }

  /** The successive matches are matches of `m` from `from` on, in order
      and without overlap, with no match before the first, between two of
      them or after the last. */
  lemma {:induction false} AllMatchesSound(n: nat, m: nat -> Option<Match>, from: nat)
    requires from <= n && IsMatcher(n, m)
    ensures var ms := AllMatches(n, m, from);
      (forall k :: 0 <= k < |ms| ==> from <= ms[k].start <= n && m(ms[k].start) == Some(ms[k]))
      && (forall k :: 0 < k < |ms| ==> ms[k - 1].end <= ms[k].start && NoneIn(m, ms[k - 1].end, ms[k].start))
      && (ms == [] ==> NoneIn(m, from, n + 1))
      && (ms != [] ==> NoneIn(m, from, ms[0].start))
      && (ms != [] ==> NoneIn(m, ms[|ms| - 1].end, n + 1))
    decreases n - from
  {
    LeftmostSound(n, m, from);
    match Leftmost(n, m, from)
    case None =>
    case Some(x) =>
      var rest := AllMatches(n, m, x.end);
      AllMatchesSound(n, m, x.end);
      var ms := [x] + rest;
      assert AllMatches(n, m, from) == ms;
      assert forall k :: 0 < k < |ms| ==> ms[k] == rest[k - 1];
      assert rest != [] ==> NoneIn(m, ms[0].end, ms[1].start);
  }

  /** `re.find_at(s, from)`: the leftmost match of `p` starting at `from` or later. */
  function Find(s: string, p: Pattern, from: nat): (r: Option<Match>)
    requires from <= |s|
    ensures r.Some? ==> from <= r.value.start < r.value.end <= |s| && r.value.capture != []
  {
    MatcherIsMatcher(s, p);
    Leftmost(|s|, Matcher(s, p), from)
  }

  /** Find yields a match that starts where it says and has no match of
      `p` before it; when it yields nothing, no match starts at or after `from`. */
  lemma FindSound(s: string, p: Pattern, from: nat)
    requires from <= |s|
    ensures var r := Find(s, p, from);
      (r.Some? ==> MatchAt(s, r.value.start, p) == r && NoneIn(Matcher(s, p), from, r.value.start))
      && (r.None? ==> NoneIn(Matcher(s, p), from, |s| + 1))
  {
    MatcherIsMatcher(s, p);
    LeftmostSound(|s|, Matcher(s, p), from);
  }

  /** `captures_iter`: all successive matches of `p` from index `from` on. */
  function FindAll(s: string, p: Pattern, from: nat): seq<Match>
    requires from <= |s|
  {
    MatcherIsMatcher(s, p);
    AllMatches(|s|, Matcher(s, p), from)
  }

  /** The matches FindAll yields are matches of `p`, in order and without
      overlap, and no match starts before the first, between two of them,
      or after the last. */
  lemma FindAllSound(s: string, p: Pattern, from: nat)
    requires from <= |s|
    ensures var ms := FindAll(s, p, from);
      (forall k :: 0 <= k < |ms| ==> from <= ms[k].start <= |s| && MatchAt(s, ms[k].start, p) == Some(ms[k]))
      && (forall k :: 0 < k < |ms| ==> ms[k - 1].end <= ms[k].start && NoneIn(Matcher(s, p), ms[k - 1].end, ms[k].start))
      && (ms == [] ==> NoneIn(Matcher(s, p), from, |s| + 1))
      && (ms != [] ==> NoneIn(Matcher(s, p), from, ms[0].start))
      && (ms != [] ==> NoneIn(Matcher(s, p), ms[|ms| - 1].end, |s| + 1))
  {
    var m := Matcher(s, p);
    MatcherIsMatcher(s, p);
    AllMatchesSound(|s|, m, from);
    var ms := FindAll(s, p, from);
    forall k | 0 <= k < |ms| ensures MatchAt(s, ms[k].start, p) == Some(ms[k]) {
      assert m(ms[k].start) == Some(ms[k]);
    }
  }

  /** `captures_iter` one match at a time: the matches from `from` on are
      the leftmost one followed by those from its end on. */
  lemma FindAllStep(s: string, p: Pattern, from: nat)
    requires from <= |s|
    ensures Find(s, p, from).None? ==> FindAll(s, p, from) == []
    ensures Find(s, p, from).Some? ==>
      FindAll(s, p, from) == [Find(s, p, from).value] + FindAll(s, p, Find(s, p, from).value.end)
  {
    MatcherIsMatcher(s, p);
  }

  function Captures(ms: seq<Match>): (cs: seq<string>)
    ensures |cs| == |ms| && forall k :: 0 <= k < |ms| ==> cs[k] == ms[k].capture
  {
    if ms == [] then [] else [ms[0].capture] + Captures(ms[1..])
  }

  /** Taking the captures one match at a time: the captures collected so
      far, then those of the leftmost match, then those after its end. */
  lemma CapturesFromMatch(acc: seq<string>, s: string, p: Pattern, from: nat)
    requires from <= |s| && Find(s, p, from).Some?
    ensures var m := Find(s, p, from).value;
      m.end <= |s| && from < m.end
      && acc + Captures(FindAll(s, p, from)) == (acc + [m.capture]) + Captures(FindAll(s, p, m.end))
  {
    var m := Find(s, p, from).value;
    FindAllStep(s, p, from);
    var rest := FindAll(s, p, m.end);
    assert Captures([m] + rest) == [m.capture] + Captures(rest);
  }

  /** `extract_sensor_value`: capture group 1 of the leftmost match, if any. */
  function ExtractSensorValue(text: string, p: Pattern): (r: Option<string>)
    ensures r.Some? ==> r.value != []
  {
    match Find(text, p, 0)
    case Some(m) => Some(m.capture)
    case None => None
  }

  /** The extracted value is nothing exactly when no match of `p` starts
      anywhere, and otherwise the capture of the match that starts first. */
  lemma ExtractSensorValueSound(text: string, p: Pattern)
    ensures var r := ExtractSensorValue(text, p);
      (r.None? <==> forall i :: 0 <= i <= |text| ==> MatchAt(text, i, p).None?)
      && (r.Some? ==>
            exists i :: 0 <= i <= |text| && MatchAt(text, i, p).Some?
                        && r.value == MatchAt(text, i, p).value.capture && NoMatchBefore(text, p, i))
  {
    FindSound(text, p, 0);
    match Find(text, p, 0)
    case Some(m) =>
      forall k | 0 <= k < m.start ensures MatchAt(text, k, p).None? {
        assert Matcher(text, p)(k).None?;
      }
      assert MatchAt(text, m.start, p).Some?;
    case None =>
      forall i | 0 <= i <= |text| ensures MatchAt(text, i, p).None? {
        assert Matcher(text, p)(i).None?;
      }
  }

  /** A match at the very start of the text is the one extracted. */
  lemma ExtractAtStart(text: string, p: Pattern)
    requires MatchAt(text, 0, p).Some?
    ensures ExtractSensorValue(text, p) == Some(MatchAt(text, 0, p).value.capture)
  {
    ExtractSensorValueSound(text, p);
    var r := ExtractSensorValue(text, p);
    var i :| 0 <= i <= |text| && MatchAt(text, i, p).Some? && r.value == MatchAt(text, i, p).value.capture
             && NoMatchBefore(text, p, i);
  }

  /** No match of `p` starts before index `i`. */
  ghost predicate NoMatchBefore(text: string, p: Pattern, i: nat)
    requires i <= |text|
  {
    forall k :: 0 <= k < i ==> MatchAt(text, k, p).None?
  }

  /** The text at `i` has the shape `<name>:\s+\+[0-9.]+`, capture group 1 being [c, e). */
  ghost predicate ReadingShape(s: string, i: nat, name: string, c: nat, e: nat) {
    var a := i + |name| + 1;
    OccursAt(s, name + ":", i) && a < c - 1 && c < e <= |s|
    && AllIn(s, a, c - 1, Space)
    && s[c - 1] == '+'
    && AllIn(s, c, e, DigitOrDot)
  }

  /** A reading match has the shape, with the longest capture (`[0-9.]+`
      is greedy). */
  lemma ReadingAtSound(s: string, i: nat, name: string)
    requires i <= |s| && ReadingAt(s, i, name).Some?
    ensures var m := ReadingAt(s, i, name).value;
      ReadingShape(s, i, name, m.at, m.end) && m.capture == s[m.at..m.end]
      && (m.end == |s| || !InClass(s[m.end], DigitOrDot))
  {
    var a := i + |name| + 1;
    RunSound(s, a, Space);
    var k := a + Run(s, a, Space);
    RunSound(s, k + 1, DigitOrDot);
  }

  /** Wherever the text has the shape, the reading matcher finds a match. */
  lemma ReadingAtComplete(s: string, i: nat, name: string, c: nat, e: nat)
    requires i <= |s| && ReadingShape(s, i, name, c, e)
    ensures ReadingAt(s, i, name).Some?
  {
    var a := i + |name| + 1;
    RunEndsAt(s, a, Space, c - 1 - a);
    assert InClass(s[c], DigitOrDot);
  }

  /** The text at `j` has the shape `<name>:\s+[0-9]+\s+RPM`, capture group 1 being [c, e)
      and `RPM` starting at f. */
  ghost predicate RpmShape(s: string, j: nat, name: string, c: nat, e: nat, f: nat) {
    var a := j + |name| + 1;
    OccursAt(s, name + ":", j) && a < c < e < f && OccursAt(s, "RPM", f)
    && AllIn(s, a, c, Space) && AllIn(s, c, e, Digit) && AllIn(s, e, f, Space)
  }

  /** A fan match has the shape, with the whole digit run captured. */
  lemma RpmAtSound(s: string, start: nat, j: nat, name: string)
    requires j <= |s| && RpmAt(s, start, j, name).Some?
    ensures var m := RpmAt(s, start, j, name).value;
      RpmShape(s, j, name, m.at, m.at + |m.capture|, m.end - 3) && m.capture == s[m.at..m.at + |m.capture|]
  {
    var sp := RpmSpans(s, j, name).value;
    RpmSpansSound(s, j, name);
    assert RpmAt(s, start, j, name).value == Match(start, sp.rpm + 3, sp.at, s[sp.at..sp.end]);
  }

  /** The spans found delimit the shape. */
  lemma RpmSpansSound(s: string, j: nat, name: string)
    requires j <= |s| && RpmSpans(s, j, name).Some?
    ensures var sp := RpmSpans(s, j, name).value; RpmShape(s, j, name, sp.at, sp.end, sp.rpm)
  {
    var a := j + |name| + 1;
    var c := a + Run(s, a, Space);
    var e := c + Run(s, c, Digit);
    var f := e + Run(s, e, Space);
    assert RpmSpans(s, j, name) == Some(Spans(c, e, f));
    RunSound(s, a, Space);
    RunSound(s, c, Digit);
    RunSound(s, e, Space);
  }

  /** Wherever the text has the shape, the fan matcher finds a match. */
  lemma RpmAtComplete(s: string, start: nat, j: nat, name: string, c: nat, e: nat, f: nat)
    requires j <= |s| && RpmShape(s, j, name, c, e, f)
    ensures RpmAt(s, start, j, name) == Some(Match(start, f + 3, c, s[c..e]))
  {
    var a := j + |name| + 1;
    assert IsDigit(s[c]);
    RunEndsAt(s, a, Space, c - a);
    assert IsWhitespace(s[e]);
    RunEndsAt(s, c, Digit, e - c);
    assert s[f] == s[f..f + 3][0] == 'R';
    RunEndsAt(s, e, Space, f - e);
    var sp := RpmSpans(s, j, name);
    assert sp.Some? && sp.value.at == c && sp.value.end == e && sp.value.rpm == f;
  }

  /** `.*?` is lazy: the chip match takes the first fan reading it can reach. */
  lemma {:induction false} LazyFirst(s: string, start: nat, name: string, j: nat, dotAll: bool, k: nat)
    requires j <= k <= |s| && RpmAt(s, start, k, name).Some?
    requires forall i :: j <= i < k ==> RpmAt(s, start, i, name).None?
    requires dotAll || '\n' !in s[j..k]
    ensures Lazy(s, start, name, j, dotAll) == RpmAt(s, start, k, name)
    decreases k - j
  {
    if j < k {
      assert s[j] == s[j..k][0];
      assert s[j + 1..k] == s[j..k][1..];
      LazyFirst(s, start, name, j + 1, dotAll, k);
    }
  }

  /** Without `dotAll`, a line break before the first fan reading stops the
      chip match: a chip header on a line of its own never matches. */
  lemma {:induction false} LazyBlocked(s: string, start: nat, name: string, j: nat, k: nat)
    requires j <= k < |s| && s[k] == '\n'
    requires forall i :: j <= i <= k ==> RpmAt(s, start, i, name).None?
    ensures Lazy(s, start, name, j, false).None?
    decreases k - j
  {
    if j < k {
      LazyBlocked(s, start, name, j + 1, k);
    }
  }

  /** Part of what the `sensors` tool prints for the second chip: its
      header on a line of its own, then the fan reading. */
  const NCT6798_BLOCK := "nct6798-isa-0290\nfan1:  1200 RPM\n"

  /** The block names a chip only at its start. */
  lemma ChipHeaderOnlyAtStart(b: string, chip: string, i: nat)
    requires b == NCT6798_BLOCK
    requires |chip| >= 2 && chip[1] == 'c' && OccursAt(b, chip, i)
    ensures i == 0
  {
    assert b[i + 1] == b[i..i + |chip|][1];
  }

  /** `p` does not occur at `i` when one of its characters differs from the text. */
  lemma MismatchAt(s: string, p: string, i: nat, k: nat)
    requires k < |p| && i + k < |s| && s[i + k] != p[k]
    ensures !OccursAt(s, p, i)
  {
    if i + |p| <= |s| {
      assert s[i..i + |p|][k] == s[i + k];
    }
  }

  /** The fan reading of the block, found where it starts. */
  lemma BlockFanReading(b: string)
    requires b == NCT6798_BLOCK
    ensures RpmAt(b, 0, 17, "fan1") == Some(Match(0, 32, 24, "1200"))
  {
    BlockFanShape(b);
    RpmAtComplete(b, 0, 17, "fan1", 24, 28, 29);
  }

  /** The line break after the header starts no fan reading. */
  lemma BlockLineBreak(b: string)
    requires b == NCT6798_BLOCK
    ensures b[16] == '\n' && RpmAt(b, 0, 16, "fan1").None?
  {
    MismatchAt(b, "fan1:", 16, 0);
  }

  lemma BlockFanShape(b: string)
    requires b == NCT6798_BLOCK
    ensures RpmShape(b, 17, "fan1", 24, 28, 29) && b[24..28] == "1200"
  {
    assert OccursAt(b, "fan1:", 17) && OccursAt(b, "RPM", 29);
  }

  /** Past its start the block starts no chip match. */
  lemma NoChipMatchAfterStart(b: string, chip: string, name: string, dotAll: bool, i: nat)
    requires b == NCT6798_BLOCK
    requires |chip| >= 2 && chip[1] == 'c' && 1 <= i <= |b|
    ensures MatchAt(b, i, ChipRpm(chip, name, dotAll)).None?
  {
    if OccursAt(b, chip, i) {
      ChipHeaderOnlyAtStart(b, chip, i);
    }
  }

  /** The block is not headed by the first chip. */
  lemma NotFirstChip(b: string, name: string, dotAll: bool)
    requires b == NCT6798_BLOCK
    ensures MatchAt(b, 0, ChipRpm("nct6799-isa-0290", name, dotAll)).None?
  {
    MismatchAt(b, "nct6799-isa-0290", 0, 6);
  }

  /** The block is headed by the second chip. */
  lemma SecondChip(b: string, name: string, dotAll: bool)
    requires b == NCT6798_BLOCK
    ensures MatchAt(b, 0, ChipRpm("nct6798-isa-0290", name, dotAll)) == Lazy(b, 0, name, 16, dotAll)
  {
    assert OccursAt(b, "nct6798-isa-0290", 0);
  }

  /** The patterns as written miss the block: the line break after the header
      stops `.*?`, and no other index starts a chip name. */
  lemma ChassisFan2AsWrittenMisses(b: string)
    requires b == NCT6798_BLOCK
    ensures ExtractSensorValue(b, CHASSIS2_A).None?
    ensures ExtractSensorValue(b, CHASSIS2_B).None?
  {
    FirstChipMisses(b, false);
    SecondChipAsWrittenMisses(b);
  }

  /** The second pattern as written: the chip name matches at the start,
      but `.*?` cannot cross the line break that follows it. */
  lemma SecondChipAsWrittenMisses(b: string)
    requires b == NCT6798_BLOCK
    ensures ExtractSensorValue(b, CHASSIS2_B).None?
  {
    BlockLineBreak(b);
    LazyBlocked(b, 0, "fan1", 16, 16);
    SecondChip(b, "fan1", false);
    ChipMatchesNowhere(b, "nct6798-isa-0290", "fan1", false);
  }

  /** A chip pattern that does not match at the start of the block matches nowhere in it. */
  lemma ChipMatchesNowhere(b: string, chip: string, name: string, dotAll: bool)
    requires b == NCT6798_BLOCK
    requires |chip| >= 2 && chip[1] == 'c' && MatchAt(b, 0, ChipRpm(chip, name, dotAll)).None?
    ensures ExtractSensorValue(b, ChipRpm(chip, name, dotAll)).None?
  {
    var p := ChipRpm(chip, name, dotAll);
    forall i | 1 <= i <= |b| ensures MatchAt(b, i, p).None? {
      NoChipMatchAfterStart(b, chip, name, dotAll, i);
    }
    ExtractSensorValueSound(b, p);
  }

  /** With or without `dotAll`, the first pattern finds no chip of its
      kind in the block. */
  lemma FirstChipMisses(b: string, dotAll: bool)
    requires b == NCT6798_BLOCK
    ensures ExtractSensorValue(b, ChipRpm("nct6799-isa-0290", "fan1", dotAll)).None?
  {
    NotFirstChip(b, "fan1", dotAll);
    ChipMatchesNowhere(b, "nct6799-isa-0290", "fan1", dotAll);
  }

  /** With `.` matching line breaks the second pattern reaches the fan
      reading below the header: chassis fan 2 resolves through it. */
  lemma ChassisFan2Resolves(b: string)
    requires b == NCT6798_BLOCK
    ensures ExtractSensorValue(b, CHASSIS2_A_DOTALL).None?
    ensures ExtractSensorValue(b, CHASSIS2_B_DOTALL) == Some("1200")
  {
    FirstChipMisses(b, true);
    BlockFanReading(b);
    BlockLineBreak(b);
    forall i | 16 <= i < 17 ensures RpmAt(b, 0, i, "fan1").None? {
      assert i == 16;
    }
    LazyFirst(b, 0, "fan1", 16, true, 17);
    SecondChip(b, "fan1", true);
    assert MatchAt(b, 0, CHASSIS2_B_DOTALL) == Some(Match(0, 32, 24, "1200"));
    ExtractAtStart(b, CHASSIS2_B_DOTALL);
  }
}
