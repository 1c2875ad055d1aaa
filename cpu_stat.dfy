/** CPU load from two readings of the first line of `/proc/stat`
    (src/sensors.rs, get_cpu_usage). The counters are exact naturals; the
    u64 sums are not bounded. */
module CpuStat {
  import opened Wrappers
  import opened Text
  import opened Numbers

  /** `filter_map(|s| s.parse().ok())`: the tokens that parse as u64, in order;
      the others are dropped. */
  function ParsedCounters(tokens: seq<string>): (v: seq<nat>)
    ensures |v| <= |tokens|
  {
    if tokens == [] then []
    else match ParseU64(tokens[0])
      case Some(n) => [n] + ParsedCounters(tokens[1..])
      case None => ParsedCounters(tokens[1..])
  }

  /** A line of well-formed counters is read back exactly. */
  lemma {:induction false} ParsedCountersNumerals(ns: seq<nat>)
    requires forall k :: 0 <= k < |ns| ==> ns[k] <= U64_MAX
    ensures ParsedCounters(Numerals(ns)) == ns
  {
    if ns != [] {
      ParseU64Decimal(ns[0]);
      assert Numerals(ns)[1..] == Numerals(ns[1..]);
      ParsedCountersNumerals(ns[1..]);
    }
  }

  /** The counters of one `/proc/stat` reading: the first line, split on
      whitespace, without its first token (the `cpu` label). An unreadable
      file reads as the empty text. */
  function Counters(stat: string): seq<nat> {
    var ls := Lines(stat);
    var tokens := SplitWhitespace(if ls == [] then "" else ls[0]);
    ParsedCounters(if tokens == [] then [] else tokens[1..])
  }

  /** A reading whose first line is `cpu` and then u64 counters, each after
      one space, yields exactly those counters, whatever lines follow. */
  lemma CountersOfStat(ns: seq<nat>, rest: string)
    requires forall k :: 0 <= k < |ns| ==> ns[k] <= U64_MAX
    ensures Counters("cpu" + Spaced(ns) + "\n" + rest) == ns
  {
    var line := "cpu" + Spaced(ns);
    var s := line + "\n" + rest;
    StatLineIsLine(ns);
    LinesFirstLine(s, line, rest);
    assert Lines(s)[0] == line;
    var tokens := StatLineTokens(ns);
    assert tokens[1..] == Numerals(ns);
    ParsedCountersNumerals(ns);
  }

  lemma StatLineIsLine(ns: seq<nat>)
    ensures IsLine("cpu" + Spaced(ns))
  {
    var sp := Spaced(ns);
    var line := "cpu" + sp;
    SpacedChars(ns);
    forall k | 0 <= k < |line| ensures line[k] != '\n' && line[k] != '\r' {
      if k >= 3 { assert line[k] == sp[k - 3]; }
    }
  }

  lemma StatLineTokens(ns: seq<nat>) returns (tokens: seq<string>)
    ensures tokens == SplitWhitespace("cpu" + Spaced(ns))
    ensures tokens == ["cpu"] + Numerals(ns)
  {
    var sp := Spaced(ns);
    assert sp == [] || IsWhitespace(sp[0]) by {
      if ns != [] { assert sp[0] == ' '; }
    }
    assert NoWhitespace("cpu");
    SplitWhitespaceWord("cpu", sp);
    SplitSpaced(ns);
    tokens := SplitWhitespace("cpu" + sp);
  }

  function Sum(v: seq<nat>): nat {
    if v == [] then 0 else v[0] + Sum(v[1..])
  }

  /** Idle time: the `idle` counter plus `iowait`, or plus 0 when there is no fifth counter. */
  function Idle(v: seq<nat>): nat
    requires |v| >= 4
  {
    v[3] + (if |v| > 4 then v[4] else 0)
  }

  /** `take(8).sum()`: the first eight counters, or all of them when there are fewer. */
  function Total(v: seq<nat>): nat {
    Sum(v[..if |v| < 8 then |v| else 8])
  }

  /** `saturating_sub`: the difference, or 0 when it would be negative. */
  function SaturatingSub(a: nat, b: nat): nat {
    if a >= b then a - b else 0
  }

  function TotalDiff(v1: seq<nat>, v2: seq<nat>): nat {
    SaturatingSub(Total(v2), Total(v1))
  }

  function IdleDiff(v1: seq<nat>, v2: seq<nat>): nat
    requires |v1| >= 4 && |v2| >= 4
  {
    SaturatingSub(Idle(v2), Idle(v1))
  }

  const U64_MODULUS: nat := 0x1_0000_0000_0000_0000

  /** The busy share as src/sensors.rs:121 computes it: `total_diff - idle_diff`
      is an unchecked u64 subtraction, which wraps around in a release build. */
  function UsageAsWritten(v1: seq<nat>, v2: seq<nat>): (r: real)
    ensures r >= 0.0
    ensures |v1| < 4 || |v2| < 4 || TotalDiff(v1, v2) == 0 ==> r == 0.0
  {
    if |v1| >= 4 && |v2| >= 4 && TotalDiff(v1, v2) > 0 then
      var t := TotalDiff(v1, v2);
      var busy := (t - IdleDiff(v1, v2)) % U64_MODULUS;
      assert busy as real / t as real >= 0.0;
      busy as real / t as real * 100.0
    else 0.0
  }

  /** The busy share with the subtraction saturating like the two before it:
      a percentage, and 0 when a reading has fewer than four counters or no
      time has passed. */
  function Usage(v1: seq<nat>, v2: seq<nat>): (r: real)
    ensures 0.0 <= r <= 100.0
    ensures |v1| < 4 || |v2| < 4 || TotalDiff(v1, v2) == 0 ==> r == 0.0
  {
    if |v1| >= 4 && |v2| >= 4 && TotalDiff(v1, v2) > 0 then
      var t := TotalDiff(v1, v2);
      var busy := SaturatingSub(t, IdleDiff(v1, v2));
      RatioBounds(busy, t);
      busy as real / t as real * 100.0
    else 0.0
  }

  lemma RatioBounds(b: nat, t: nat)
    requires b <= t && t > 0
    ensures 0.0 <= b as real / t as real * 100.0 <= 100.0
  {
    assert b as real / t as real <= 1.0;
  }

  /** `get_cpu_usage`, with the two readings of `/proc/stat` passed in, as
      the code computes it: never negative, and 0 when a reading has fewer
      than four counters or no time has passed. It is a percentage only on
      readings whose counters never decrease (CpuUsageIsPercentage). */
  function CpuUsage(stat1: string, stat2: string): (r: real)
    ensures r >= 0.0
    ensures var v1, v2 := Counters(stat1), Counters(stat2);
      |v1| < 4 || |v2| < 4 || TotalDiff(v1, v2) == 0 ==> r == 0.0
  {
    UsageAsWritten(Counters(stat1), Counters(stat2))
  }

  /** The second reading has the same counters, none smaller than in the first. */
  predicate NeverDecreasing(v1: seq<nat>, v2: seq<nat>) {
    |v1| == |v2| && forall i :: 0 <= i < |v1| ==> v1[i] <= v2[i]
  }

  lemma {:induction false} SumAppend(a: seq<nat>, b: seq<nat>)
    ensures Sum(a + b) == Sum(a) + Sum(b)
  {
    if a == [] {
      assert a + b == b;
    } else {
      assert (a + b)[1..] == a[1..] + b;
      SumAppend(a[1..], b);
    }
  }

  lemma {:induction false} SumMonotone(a: seq<nat>, b: seq<nat>)
    requires NeverDecreasing(a, b)
    ensures Sum(a) <= Sum(b)
  {
    if a != [] {
      SumMonotone(a[1..], b[1..]);
    }
  }

  /** The part of the total that is neither of the first three counters nor idle time. */
  function Rest(v: seq<nat>): nat
    requires |v| >= 4
  {
    if |v| > 5 then Sum(v[5..if |v| < 8 then |v| else 8]) else 0
  }

  lemma TotalSplits(v: seq<nat>)
    requires |v| >= 4
    ensures Total(v) == Sum(v[..3]) + Idle(v) + Rest(v)
  {
    var m := if |v| < 8 then |v| else 8;
    var p := v[..m];
    assert p == v[..3] + [v[3]] + p[4..];
    SumAppend(v[..3] + [v[3]], p[4..]);
    SumAppend(v[..3], [v[3]]);
    if |v| > 4 {
      assert p[4..] == [v[4]] + p[5..];
      if |v| > 5 { assert p[5..] == v[5..m]; }
    }
  }

  /** With readings of the same length whose counters never decrease, idle
      time cannot grow by more than the total, so the unchecked subtraction
      at src/sensors.rs:121 cannot wrap. */
  lemma IdleDiffWithinTotalDiff(v1: seq<nat>, v2: seq<nat>)
    requires |v1| >= 4 && NeverDecreasing(v1, v2)
    ensures IdleDiff(v1, v2) <= TotalDiff(v1, v2)
  {
    TotalSplits(v1);
    TotalSplits(v2);
    SumMonotone(v1[..3], v2[..3]);
    if |v1| > 5 {
      var m := if |v1| < 8 then |v1| else 8;
      SumMonotone(v1[5..m], v2[5..m]);
    }
  }

  /** On such readings (whose sums fit in a u64, as they must for the code
      to reach the subtraction) the code as written and the saturating
      version agree, so the usage it reports is a percentage. */
  lemma UsageAsWrittenWhenNeverDecreasing(v1: seq<nat>, v2: seq<nat>)
    requires |v1| >= 4 && NeverDecreasing(v1, v2) && Total(v2) <= U64_MAX
    ensures UsageAsWritten(v1, v2) == Usage(v1, v2)
    ensures 0.0 <= UsageAsWritten(v1, v2) <= 100.0
  {
    IdleDiffWithinTotalDiff(v1, v2);
  }

  /** Readings whose idle time grows more than their total make the
      subtraction wrap: first lines `cpu 10 0 0 0` and then `cpu 0 0 0 20`
      report a usage far above 100 percent. */
  lemma UsageAsWrittenWraps()
    ensures UsageAsWritten([10, 0, 0, 0], [0, 0, 0, 20]) > 100.0
    ensures Usage([10, 0, 0, 0], [0, 0, 0, 20]) == 0.0
  {
    var v1: seq<nat> := [10, 0, 0, 0];
    var v2: seq<nat> := [0, 0, 0, 20];
    assert Total(v1) == 10 by { assert v1[..4] == v1; }
    assert Total(v2) == 20 by { assert v2[..4] == v2; }
    assert TotalDiff(v1, v2) == 10;
    assert IdleDiff(v1, v2) == 20;
    assert (10 - 20) % U64_MODULUS == U64_MODULUS - 10;
  }

  /** Two readings of the same counters, none of which went down, give a
      percentage, the same one the saturating subtraction gives. */
  lemma CpuUsageIsPercentage(stat1: string, stat2: string)
    requires |Counters(stat1)| >= 4 && NeverDecreasing(Counters(stat1), Counters(stat2))
    requires Total(Counters(stat2)) <= U64_MAX
    ensures CpuUsage(stat1, stat2) == Usage(Counters(stat1), Counters(stat2))
    ensures 0.0 <= CpuUsage(stat1, stat2) <= 100.0
  {
    UsageAsWrittenWhenNeverDecreasing(Counters(stat1), Counters(stat2));
  }
}
