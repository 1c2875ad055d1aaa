/** Rust's `str::parse::<u64>` and `str::parse::<f32>`, the two number
    parsers the sensor code uses, with exact values (a `nat` for u64, a `real`
    for f32: rounding to 24-bit mantissas is not modelled). */
module Numbers {
  import opened Wrappers
  import opened Text

  predicate IsDigit(c: char) {
    '0' <= c <= '9'
  }

  predicate AllDigits(s: string) {
    forall i :: 0 <= i < |s| ==> IsDigit(s[i])
  }

  function DigitValue(c: char): nat
    requires IsDigit(c)
  {
    c as int - '0' as int
  }

  function DigitChar(d: nat): (c: char)
    requires d < 10
    ensures IsDigit(c) && DigitValue(c) == d
  {
    ('0' as int + d) as char
  }

  /** The number a string of decimal digits denotes (0 for the empty string). */
  function DigitsValue(ds: string): nat
    requires AllDigits(ds)
  {
    if ds == [] then 0 else DigitsValue(ds[..|ds| - 1]) * 10 + DigitValue(ds[|ds| - 1])
  }

  const U64_MAX: nat := 0xFFFF_FFFF_FFFF_FFFF

  /** `tok.parse::<u64>()`: an optional `+`, then one or more ASCII digits
      whose value fits in 64 bits; anything else is an error. */
  function ParseU64(tok: string): Option<nat> {
    var ds := if tok != [] && tok[0] == '+' then tok[1..] else tok;
    if ds != [] && AllDigits(ds) && DigitsValue(ds) <= U64_MAX then Some(DigitsValue(ds)) else None
  }

  /** The decimal numeral of `n`, as Rust's `to_string` writes it. */
  function Decimal(n: nat): (r: string)
    ensures r != [] && AllDigits(r)
  {
    if n < 10 then [DigitChar(n)] else Decimal(n / 10) + [DigitChar(n % 10)]
  }

  lemma {:induction false} DigitsValueDecimal(n: nat)
    ensures DigitsValue(Decimal(n)) == n
  {
    if n >= 10 {
      var r := Decimal(n);
      assert r[..|r| - 1] == Decimal(n / 10);
      DigitsValueDecimal(n / 10);
    }
  }

  /** The numerals of `ns`, in order. */
  function Numerals(ns: seq<nat>): (r: seq<string>)
    ensures |r| == |ns| && forall k :: 0 <= k < |ns| ==> r[k] == Decimal(ns[k])
  {
    if ns == [] then [] else [Decimal(ns[0])] + Numerals(ns[1..])
  }

  /** Every 64-bit value read back from its numeral is itself. */
  lemma ParseU64Decimal(n: nat)
    requires n <= U64_MAX
    ensures ParseU64(Decimal(n)) == Some(n)
  {
    DigitsValueDecimal(n);
  }

  /** The length of the run of ASCII digits at the start of `s`. */
  function DigitRun(s: string): (n: nat)
    ensures n <= |s| && AllDigits(s[..n]) && (n < |s| ==> !IsDigit(s[n]))
  {
    if s == [] || !IsDigit(s[0]) then 0
    else
      var n := 1 + DigitRun(s[1..]);
      assert s[..n] == [s[0]] + s[1..][..n - 1];
      n
  }

  function Pow10(e: nat): (p: nat)
    ensures p >= 1
  {
    if e == 0 then 1 else 10 * Pow10(e - 1)
  }

  /** x times ten to the power e. */
  function Scale(x: real, e: int): real {
    if e >= 0 then x * Pow10(e) as real else x / Pow10(-e) as real
  }

  /** An optional sign: true for `-`. */
  function SignOf(s: string): (bool, string) {
    if s != [] && (s[0] == '+' || s[0] == '-') then (s[0] == '-', s[1..]) else (false, s)
  }

  /** The exponent part `e`/`E`, optional sign, one or more digits, and
      nothing after it; the empty string is exponent 0. */
  function ParseExponent(s: string): Option<int> {
    if s == [] then Some(0)
    else if s[0] != 'e' && s[0] != 'E' then None
    else
      var (neg, ds) := SignOf(s[1..]);
      if ds != [] && AllDigits(ds) then
        Some(if neg then -(DigitsValue(ds) as int) else DigitsValue(ds) as int)
      else None
  }

  /** `tok.parse::<f32>()` for finite decimal numerals: an optional sign,
      digits with an optional `.` and fraction (at least one digit in all),
      and an optional exponent. */
  function ParseF32(tok: string): Option<real> {
    var (neg, body) := SignOf(tok);
    var ip := DigitRun(body);
    var intDigits := body[..ip];
    var afterInt := body[ip..];
    var hasPoint := afterInt != [] && afterInt[0] == '.';
    var fracPart := if hasPoint then afterInt[1..] else [];
    var fp := DigitRun(fracPart);
    var fracDigits := fracPart[..fp];
    var expPart := if hasPoint then fracPart[fp..] else afterInt;
    if ip + fp == 0 then None
    else match ParseExponent(expPart)
      case None => None
      case Some(e) =>
        var mantissa := DigitsValue(intDigits) as real + DigitsValue(fracDigits) as real / Pow10(fp) as real;
        var magnitude := Scale(mantissa, e);
        Some(if neg then -magnitude else magnitude)
  }

  /** A whole number read as f32 is that number. */
  lemma ParseF32Decimal(n: nat)
    ensures ParseF32(Decimal(n)) == Some(n as real)
  {
    var d := Decimal(n);
    DigitsValueDecimal(n);
    assert d[..|d|] == d;
  }

  /** ` n1 n2 ...`: the numbers of a row, each after one space. */
  function Spaced(ns: seq<nat>): string {
    if ns == [] then [] else " " + Decimal(ns[0]) + Spaced(ns[1..])
  }

  /** Numerals separated by spaces are split back into the same numerals. */
  lemma {:induction false} SplitSpaced(ns: seq<nat>)
    ensures SplitWhitespace(Spaced(ns)) == Numerals(ns)
  {
    if ns != [] {
      var d := Decimal(ns[0]);
      var rest := Spaced(ns[1..]);
      assert NoWhitespace(d) by {
        forall i | 0 <= i < |d| ensures !IsWhitespace(d[i]) { assert IsDigit(d[i]); }
      }
      SplitWhitespaceWord(d, rest);
      assert Spaced(ns) == [' '] + (d + rest);
      assert SplitWhitespace(Spaced(ns)) == SplitWhitespace(d + rest);
      SplitSpaced(ns[1..]);
      assert Numerals(ns)[1..] == Numerals(ns[1..]);
    }
  }

  /** Every character of a row of numerals is a space or a digit. */
  lemma {:induction false} SpacedChars(ns: seq<nat>)
    ensures forall k :: 0 <= k < |Spaced(ns)| ==> Spaced(ns)[k] == ' ' || IsDigit(Spaced(ns)[k])
  {
    if ns != [] {
      var d := Decimal(ns[0]);
      var rest := Spaced(ns[1..]);
      SpacedChars(ns[1..]);
      assert Spaced(ns) == [' '] + d + rest;
      forall k | 0 <= k < |Spaced(ns)| ensures Spaced(ns)[k] == ' ' || IsDigit(Spaced(ns)[k]) {
        if 1 <= k < 1 + |d| {
          assert Spaced(ns)[k] == d[k - 1];
        } else if k >= 1 + |d| {
          assert Spaced(ns)[k] == rest[k - 1 - |d|];
        }
      }
    }
  }
}
