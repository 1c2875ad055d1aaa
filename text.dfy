/** The string operations of Rust's `str` that the sensor parsers rely on:
    `trim`, `trim_start`, `find`, `contains`, `split(c)`, `split(pat).nth(1)`,
    `split_whitespace`, `lines` and `to_lowercase` (for ASCII letters).
    Strings are sequences of Unicode scalar values. */
module Text {
  import opened Wrappers

  /** Unicode White_Space: what Rust's `char::is_whitespace`, `trim` and
      `split_whitespace` use, and what the regex class `\s` matches. */
  predicate IsWhitespace(c: char) {
    ('\t' <= c <= '\r') || c == ' ' || c == '\U{85}' || c == '\U{A0}' || c == '\U{1680}'
    || ('\U{2000}' <= c <= '\U{200A}') || c == '\U{2028}' || c == '\U{2029}'
    || c == '\U{202F}' || c == '\U{205F}' || c == '\U{3000}'
  }

  predicate AllWhitespace(s: string) {
    forall i :: 0 <= i < |s| ==> IsWhitespace(s[i])
  }

  /** `trim_start`: `s` without its leading whitespace. */
  function TrimStart(s: string): (r: string)
    ensures |r| <= |s|
  {
    if s != [] && IsWhitespace(s[0]) then TrimStart(s[1..]) else s
  }

  /** What `trim_start` cuts away is whitespace, and what it keeps is the
      rest of `s`, not starting with whitespace. */
  lemma {:induction false} TrimStartSound(s: string)
    ensures var r := TrimStart(s);
      r == s[|s| - |r|..] && AllWhitespace(s[..|s| - |r|]) && (r != [] ==> !IsWhitespace(r[0]))
  {
    if s != [] && IsWhitespace(s[0]) {
      TrimStartSound(s[1..]);
      var r := TrimStart(s[1..]);
      assert s[..|s| - |r|] == [s[0]] + s[1..][..|s| - 1 - |r|];
    }
  }

  /** `trim_end`: `s` without its trailing whitespace. */
  function TrimEnd(s: string): (r: string)
    ensures |r| <= |s|
  {
    if s != [] && IsWhitespace(s[|s| - 1]) then TrimEnd(s[..|s| - 1]) else s
  }

  /** What `trim_end` cuts away is whitespace, and what it keeps is the
      start of `s`, not ending with whitespace. */
  lemma {:induction false} TrimEndSound(s: string)
    ensures var r := TrimEnd(s);
      r == s[..|r|] && AllWhitespace(s[|r|..]) && (r != [] ==> !IsWhitespace(r[|r| - 1]))
  {
    if s != [] && IsWhitespace(s[|s| - 1]) {
      TrimEndSound(s[..|s| - 1]);
      var r := TrimEnd(s[..|s| - 1]);
      assert s[|r|..] == s[..|s| - 1][|r|..] + [s[|s| - 1]];
    }
  }

  /** `trim`: `s` without its leading and trailing whitespace; what is cut
      away on either side is whitespace only. */
  function Trim(s: string): (r: string)
    ensures |r| <= |s|
  {
    TrimEnd(TrimStart(s))
  }

  /** What `trim` cuts away on either side is whitespace only, and what it
      keeps neither starts nor ends with whitespace. */
  lemma TrimSound(s: string)
    ensures var r := Trim(s);
      exists a :: 0 <= a <= |s| - |r| && r == s[a..a + |r|]
                  && AllWhitespace(s[..a]) && AllWhitespace(s[a + |r|..])
    ensures var r := Trim(s);
      r != [] ==> !IsWhitespace(r[0]) && !IsWhitespace(r[|r| - 1])
  {
    var t := TrimStart(s);
    var r := TrimEnd(t);
    var a := |s| - |t|;
    TrimStartSound(s);
    TrimEndSound(t);
    assert r == s[a..a + |r|];
    assert s[a + |r|..] == t[|r|..];
  }

  /** `p` occurs in `s` starting at index `i`. */
  predicate OccursAt(s: string, p: string, i: nat) {
    i + |p| <= |s| && s[i..i + |p|] == p
  }

  /** A text that does not contain a one-character pattern never holds that character. */
  lemma NotContainsChar(s: string, c: char)
    requires !Contains(s, [c])
    ensures forall k :: 0 <= k < |s| ==> s[k] != c
  {
    ContainsSound(s, [c]);
    forall k | 0 <= k < |s| ensures s[k] != c {
      OccursAtChar(s, c, k);
    }
  }

  /** A one-character pattern occurs where the text holds that character. */
  lemma OccursAtChar(s: string, c: char, i: nat)
    ensures OccursAt(s, [c], i) <==> i < |s| && s[i] == c
  {
    if i < |s| {
      assert s[i..i + 1] == [s[i]];
    }
  }

  /** `s.starts_with(p)`. */
  predicate StartsWith(s: string, p: string) {
    OccursAt(s, p, 0)
  }

  /** `s[from..].find(p)`, as an index into `s`: the first occurrence of `p` at or after `from`. */
  function IndexOfFrom(s: string, p: string, from: nat): (r: Option<nat>)
    ensures r.Some? ==> from <= r.value && OccursAt(s, p, r.value)
    decreases |s| - from
  {
    if from + |p| > |s| then None
    else if s[from..from + |p|] == p then Some(from)
    else IndexOfFrom(s, p, from + 1)
  }

  /** The occurrence found is the first at or after `from`, and none is
      found only when there is none. */
  lemma {:induction false} IndexOfFromSound(s: string, p: string, from: nat)
    ensures var r := IndexOfFrom(s, p, from);
      (r.Some? ==> forall i :: from <= i < r.value ==> !OccursAt(s, p, i))
      && (r.None? ==> forall i :: from <= i ==> !OccursAt(s, p, i))
    decreases |s| - from
  {
    if from + |p| <= |s| && s[from..from + |p|] != p {
      IndexOfFromSound(s, p, from + 1);
    }
  }

  /** The first occurrence at or after `from` is the one found. */
  lemma {:induction false} IndexOfFirst(s: string, p: string, i: nat)
    requires OccursAt(s, p, i)
    requires forall j :: 0 <= j < i ==> !OccursAt(s, p, j)
    ensures IndexOf(s, p) == Some(i)
  {
    IndexOfFromSound(s, p, 0);
  }

  /** `s.find(p)`. */
  function IndexOf(s: string, p: string): Option<nat> {
    IndexOfFrom(s, p, 0)
  }

  /** `s.contains(p)`. */
  predicate Contains(s: string, p: string) {
    IndexOf(s, p).Some?
  }

  /** `s.contains(p)` holds exactly when `p` occurs somewhere in `s`. */
  lemma ContainsSound(s: string, p: string)
    ensures Contains(s, p) <==> exists i: nat :: OccursAt(s, p, i)
  {
    IndexOfFromSound(s, p, 0);
  }

  /** `s[from..].find(c)` for a single character, as an index into `s`. */
  function FindChar(s: string, c: char, from: nat): (r: Option<nat>)
    ensures r.Some? ==> from <= r.value < |s| && s[r.value] == c
    decreases |s| - from
  {
    if from >= |s| then None
    else if s[from] == c then Some(from)
    else FindChar(s, c, from + 1)
  }

  /** The character found is the first `c` at or after `from`, and none is
      found only when there is none. */
  lemma {:induction false} FindCharSound(s: string, c: char, from: nat)
    ensures var r := FindChar(s, c, from);
      (r.Some? ==> forall i :: from <= i < r.value ==> s[i] != c)
      && (r.None? ==> forall i :: from <= i < |s| ==> s[i] != c)
    decreases |s| - from
  {
    if from < |s| && s[from] != c {
      FindCharSound(s, c, from + 1);
    }
  }

  /** The first `c` at or after `from` is the one found. */
  lemma {:induction false} FindCharFirst(s: string, c: char, from: nat, i: nat)
    requires from <= i < |s| && s[i] == c
    requires forall j :: from <= j < i ==> s[j] != c
    ensures FindChar(s, c, from) == Some(i)
    decreases i - from
  {
    if from < i {
      FindCharFirst(s, c, from + 1, i);
    }
  }

  /** `s.split(sep).nth(1)`: the text between the first and the second
      occurrence of `sep` (or the end of `s`); None when `sep` does not occur. */
  function SecondPiece(s: string, sep: string): (r: Option<string>)
    requires sep != []
    ensures r.None? <==> !Contains(s, sep)
    ensures r.Some? ==>
      var b := IndexOf(s, sep).value + |sep|;
      b + |r.value| <= |s| && r.value == s[b..b + |r.value|]
  {
    match IndexOf(s, sep)
    case None => None
    case Some(i) =>
      var rest := s[i + |sep|..];
      match IndexOf(rest, sep)
      case None => Some(rest)
      case Some(j) => Some(rest[..j])
  }

  /** The second piece holds no separator and ends at the next one or at
      the end of the text. */
  lemma SecondPieceSound(s: string, sep: string)
    requires sep != [] && Contains(s, sep)
    ensures var r := SecondPiece(s, sep).value;
      var b := IndexOf(s, sep).value + |sep|;
      !Contains(r, sep) && (b + |r| == |s| || OccursAt(s, sep, b + |r|))
  {
    var i := IndexOf(s, sep).value;
    var b := i + |sep|;
    var rest := s[b..];
    match IndexOf(rest, sep)
    case None =>
      assert SecondPiece(s, sep).value == rest;
    case Some(j) =>
      var piece := rest[..j];
      assert SecondPiece(s, sep).value == piece;
      OccursInSuffix(s, sep, b, j);
      IndexOfFromSound(rest, sep, 0);
      forall k: nat | OccursAt(piece, sep, k) ensures OccursAt(rest, sep, k) {
        assert piece[k..k + |sep|] == rest[k..k + |sep|];
      }
      ContainsSound(piece, sep);
  }

  /** An occurrence in a suffix of the text is one in the text. */
  lemma OccursInSuffix(s: string, p: string, b: nat, j: nat)
    requires b <= |s| && OccursAt(s[b..], p, j)
    ensures OccursAt(s, p, b + j)
  {
    assert s[b + j..b + j + |p|] == s[b..][j..j + |p|];
  }

  /** `s.split(c)` collected: the pieces between occurrences of `c`; there is
      always at least one. */
  function Split(s: string, c: char): (r: seq<string>)
    ensures |r| >= 1
  {
    if s == [] then [[]]
    else
      var rest := Split(s[1..], c);
      if s[0] == c then [[]] + rest
      else [[s[0]] + rest[0]] + rest[1..]
  }

  /** No piece holds the separator; there is one piece exactly when the
      separator does not occur; the first piece is the text up to the first
      separator. */
  lemma {:induction false} SplitSound(s: string, c: char)
    ensures var r := Split(s, c);
      (forall k :: 0 <= k < |r| ==> c !in r[k])
      && (|r| == 1 <==> c !in s)
      && |r[0]| <= |s| && r[0] == s[..|r[0]|] && (|r| > 1 ==> s[|r[0]|] == c) && (|r| == 1 ==> r[0] == s)
  {
    if s != [] {
      SplitSound(s[1..], c);
      var rest := Split(s[1..], c);
      var r := Split(s, c);
      if s[0] == c {
        assert forall k :: 1 <= k < |r| ==> r[k] == rest[k - 1];
      } else {
        assert forall k :: 1 <= k < |r| ==> r[k] == rest[k];
        assert r[0] == [s[0]] + rest[0];
        assert c in s <==> c in s[1..] by {
          if c in s {
            var i :| 0 <= i < |s| && s[i] == c;
            assert s[1..][i - 1] == c;
          }
        }
      }
    }
  }

  /** Gluing pieces back together with `c` between them. */
  function Join(pieces: seq<string>, c: char): string
    requires |pieces| >= 1
  {
    if |pieces| == 1 then pieces[0] else pieces[0] + [c] + Join(pieces[1..], c)
  }

  /** Split loses nothing: joining its pieces with the separator gives back the text. */
  lemma {:induction false} JoinSplit(s: string, c: char)
    ensures Join(Split(s, c), c) == s
  {
    if s != [] {
      JoinSplit(s[1..], c);
      var rest := Split(s[1..], c);
      if s[0] != c {
        if |rest| == 1 {
        } else {
          assert ([s[0]] + rest[0]) + [c] + Join(rest[1..], c) == [s[0]] + (rest[0] + [c] + Join(rest[1..], c));
        }
      }
    }
  }

  /** The length of the run of non-whitespace characters at the start of `s`. */
  function WordLength(s: string): (n: nat)
    ensures n <= |s| && (n < |s| ==> IsWhitespace(s[n]))
    ensures forall i :: 0 <= i < n ==> !IsWhitespace(s[i])
  {
    if s == [] || IsWhitespace(s[0]) then 0 else 1 + WordLength(s[1..])
  }

  /** `split_whitespace` collected: the maximal runs of non-whitespace characters. */
  function SplitWhitespace(s: string): (r: seq<string>)
    ensures forall k :: 0 <= k < |r| ==> r[k] != [] && NoWhitespace(r[k])
    decreases |s|
  {
    if s == [] then []
    else if IsWhitespace(s[0]) then SplitWhitespace(s[1..])
    else
      var n := WordLength(s);
      [s[..n]] + SplitWhitespace(s[n..])
  }

  predicate NoWhitespace(s: string) {
    forall i :: 0 <= i < |s| ==> !IsWhitespace(s[i])
  }

  /** The non-whitespace characters of `s`, in order. */
  function Unspaced(s: string): string {
    if s == [] then []
    else if IsWhitespace(s[0]) then Unspaced(s[1..])
    else [s[0]] + Unspaced(s[1..])
  }

  function Concat(words: seq<string>): string {
    if words == [] then [] else words[0] + Concat(words[1..])
  }

  lemma {:induction false} UnspacedAppend(a: string, b: string)
    ensures Unspaced(a + b) == Unspaced(a) + Unspaced(b)
  {
    if a == [] {
      assert a + b == b;
    } else {
      assert (a + b)[0] == a[0];
      assert (a + b)[1..] == a[1..] + b;
      UnspacedAppend(a[1..], b);
    }
  }

  lemma {:induction false} UnspacedOfWord(s: string)
    requires NoWhitespace(s)
    ensures Unspaced(s) == s
  {
    if s != [] { UnspacedOfWord(s[1..]); }
  }

  /** split_whitespace drops exactly the whitespace: its words, glued
      together, are the non-whitespace characters of the text in order. */
  lemma {:induction false} SplitWhitespaceKeepsText(s: string)
    ensures Concat(SplitWhitespace(s)) == Unspaced(s)
    decreases |s|
  {
    if s != [] {
      if IsWhitespace(s[0]) {
        SplitWhitespaceKeepsText(s[1..]);
      } else {
        var n := WordLength(s);
        assert s == s[..n] + s[n..];
        UnspacedAppend(s[..n], s[n..]);
        UnspacedOfWord(s[..n]);
        SplitWhitespaceKeepsText(s[n..]);
        assert SplitWhitespace(s)[1..] == SplitWhitespace(s[n..]);
      }
    }
  }

  /** A word followed by whitespace (or nothing) is the first word split off. */
  lemma SplitWhitespaceWord(w: string, rest: string)
    requires w != [] && NoWhitespace(w)
    requires rest == [] || IsWhitespace(rest[0])
    ensures SplitWhitespace(w + rest) == [w] + SplitWhitespace(rest)
  {
    var s := w + rest;
    var n := WordLength(s);
    assert forall i :: 0 <= i < |w| ==> s[i] == w[i];
    assert rest != [] ==> s[|w|] == rest[0];
    assert n == |w|;
    assert s[..n] == w && s[n..] == rest;
  }

  /** One line of `lines()`: a `\r` is dropped only when it ended the line before `\n`. */
  function StripCarriageReturn(line: string): string {
    if line != [] && line[|line| - 1] == '\r' then line[..|line| - 1] else line
  }

  /** `s.lines()` collected: split at `\n`, `\r\n` accepted as a line end, no
      empty last line after a final `\n`. */
  function Lines(s: string): (r: seq<string>)
    ensures r == [] <==> s == []
    decreases |s|
  {
    if s == [] then []
    else match FindChar(s, '\n', 0)
      case None => [s]
      case Some(i) => [StripCarriageReturn(s[..i])] + Lines(s[i + 1..])
  }

  /** No line holds a line break. */
  lemma {:induction false} LinesHaveNoBreaks(s: string)
    ensures forall k :: 0 <= k < |Lines(s)| ==> '\n' !in Lines(s)[k]
    decreases |s|
  {
    if s != [] {
      FindCharSound(s, '\n', 0);
      match FindChar(s, '\n', 0)
      case None =>
      case Some(i) =>
        LinesHaveNoBreaks(s[i + 1..]);
        var ls := Lines(s);
        assert forall k :: 1 <= k < |ls| ==> ls[k] == Lines(s[i + 1..])[k - 1];
    }
  }

  /** Lines glued back with `\n` after each. */
  function Unlines(ls: seq<string>): string {
    if ls == [] then [] else ls[0] + "\n" + Unlines(ls[1..])
  }

  /** Without carriage returns, `lines()` loses only the final line break:
      putting the line breaks back gives the text, completed with a `\n`. */
  lemma {:induction false} UnlinesLines(s: string)
    requires '\r' !in s
    ensures Unlines(Lines(s)) == if s == [] || s[|s| - 1] == '\n' then s else s + "\n"
    decreases |s|
  {
    if s != [] {
      match FindChar(s, '\n', 0)
      case None =>
        UnlinesLastLine(s);
      case Some(i) =>
        var rest := s[i + 1..];
        assert '\r' !in rest by {
          forall j | 0 <= j < |rest| ensures rest[j] != '\r' { assert rest[j] == s[i + 1 + j]; }
        }
        UnlinesLines(rest);
        UnlinesFirstLine(s, i);
    }
  }

  /** A text without `\n` is one line. */
  lemma UnlinesLastLine(s: string)
    requires s != [] && FindChar(s, '\n', 0).None?
    ensures Unlines(Lines(s)) == s + "\n" && s[|s| - 1] != '\n'
  {
    FindCharSound(s, '\n', 0);
    assert Lines(s) == [s];
    assert Unlines([s]) == s + "\n" + [];
  }

  /** The first line and its `\n` come back in front of the rest. */
  lemma UnlinesFirstLine(s: string, i: nat)
    requires '\r' !in s && FindChar(s, '\n', 0) == Some(i)
    requires var rest := s[i + 1..];
      Unlines(Lines(rest)) == if rest == [] || rest[|rest| - 1] == '\n' then rest else rest + "\n"
    ensures Unlines(Lines(s)) == if s[|s| - 1] == '\n' then s else s + "\n"
  {
    var head, rest := s[..i], s[i + 1..];
    var ls := Lines(rest);
    assert s == head + "\n" + rest;
    assert StripCarriageReturn(head) == head by {
      if head != [] { assert head[i - 1] == s[i - 1]; }
    }
    assert Lines(s) == [head] + ls;
    assert Unlines([head] + ls) == head + "\n" + Unlines(ls) by {
      assert ([head] + ls)[1..] == ls;
    }
    BreakBeforeRest(s, head, rest, Unlines(ls));
  }

  /** Completing the text after a line break completes the whole text. */
  lemma BreakBeforeRest(s: string, head: string, rest: string, u: string)
    requires s == head + "\n" + rest
    requires u == if rest == [] || rest[|rest| - 1] == '\n' then rest else rest + "\n"
    ensures head + "\n" + u == if s[|s| - 1] == '\n' then s else s + "\n"
  {
    if rest != [] {
      assert rest[|rest| - 1] == s[|s| - 1];
      if rest[|rest| - 1] != '\n' {
        assert head + "\n" + (rest + "\n") == s + "\n";
      }
    }
  }

  /** A line as `lines()` yields it: no `\n` in it and no `\r` at its end. */
  predicate IsLine(line: string) {
    '\n' !in line && (line == [] || line[|line| - 1] != '\r')
  }

  /** Lines glued with `\n` are split back into the same lines. */
  lemma {:induction false} LinesUnlines(ls: seq<string>)
    requires forall k :: 0 <= k < |ls| ==> IsLine(ls[k])
    ensures Lines(Unlines(ls)) == ls
  {
    if ls != [] {
      LinesFirstLine(Unlines(ls), ls[0], Unlines(ls[1..]));
      LinesUnlines(ls[1..]);
    }
  }

  /** A line followed by `\n` is split off whole. */
  lemma LinesFirstLine(s: string, line: string, rest: string)
    requires IsLine(line) && s == line + "\n" + rest
    ensures Lines(s) == [line] + Lines(rest)
  {
    var i := |line|;
    assert s[i] == '\n';
    assert forall j :: 0 <= j < i ==> s[j] != '\n' by {
      forall j | 0 <= j < i ensures s[j] != '\n' { assert s[j] == line[j]; }
    }
    FindCharFirst(s, '\n', 0, i);
    assert s[..i] == line;
    assert s[i + 1..] == rest;
  }

  /** `to_lowercase` on ASCII letters; every other character is kept. */
  function AsciiLower(c: char): char {
    if 'A' <= c <= 'Z' then (c as int + 32) as char else c
  }

  function ToLower(s: string): (r: string)
    ensures |r| == |s|
  {
    if s == [] then [] else [AsciiLower(s[0])] + ToLower(s[1..])
  }

  /** Lowering works character by character. */
  lemma {:induction false} ToLowerAt(s: string)
    ensures forall i :: 0 <= i < |s| ==> ToLower(s)[i] == AsciiLower(s[i])
  {
    if s != [] {
      ToLowerAt(s[1..]);
    }
  }
}
