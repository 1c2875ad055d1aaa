/** The processor name from `/proc/cpuinfo` (src/sensors.rs, identify_processor). */
module CpuInfo {
  import opened Wrappers
  import opened Text

  /** The name a `/proc/cpuinfo` line gives: on a line starting with
      `model name`, the trimmed text between its first `:` and the next one
      (or the end); nothing for any other line, nor for a `model name` line
      without a `:`. */
  function ModelName(line: string): (r: Option<string>)
    ensures r.Some? <==> StartsWith(line, "model name") && Contains(line, ":")
  {
    if !StartsWith(line, "model name") then None
    else match SecondPiece(line, ":")
      case Some(p) => Some(Trim(p))
      case None => None
  }

  /** The processor name after reading `/proc/cpuinfo`: the name the first
      `model name` line with a `:` gives; the current name when the file
      cannot be read (None) or has no such line. */
  function ProcessorName(current: string, cpuinfo: Option<string>): string {
    match cpuinfo
    case None => current
    case Some(text) =>
      match FirstSome(Lines(text), ModelName)
      case Some(name) => name
      case None => current
  }

  /** The name is the value after the label's colon, up to a second colon,
      with the padding around it removed. */
  lemma ModelNameOfLine(pad: string, v: string, w: string)
    requires ':' !in pad && ':' !in v
    ensures ModelName("model name" + pad + ":" + v) == Some(Trim(v))
    ensures ModelName("model name" + pad + ":" + v + ":" + w) == Some(Trim(v))
  {
    var tag := "model name";
    var head := tag + pad;
    assert head[..10] == tag;
    forall k | 0 <= k < |head| ensures head[k] != ':' {
      if k < 10 {
        assert head[k] == tag[k];
      } else {
        assert head[k] == pad[k - 10];
      }
    }
    ModelNameAfter(head, v, "");
    assert head + ":" + v + "" == head + ":" + v;
    ModelNameAfter(head, v, ":" + w);
    assert head + ":" + v + (":" + w) == head + ":" + v + ":" + w;
  }

  lemma ModelNameAfter(head: string, v: string, tail: string)
    requires StartsWith(head, "model name")
    requires forall k :: 0 <= k < |head| ==> head[k] != ':'
    requires ':' !in v
    requires tail == [] || tail[0] == ':'
    ensures ModelName(head + ":" + v + tail) == Some(Trim(v))
  {
    var line := head + ":" + v + tail;
    assert line[..10] == head[..10];
    PieceAfterFirstColon(head, v, tail);
  }

  /** The text between the first colon, which ends `head`, and the next one. */
  lemma PieceAfterFirstColon(head: string, v: string, tail: string)
    requires forall k :: 0 <= k < |head| ==> head[k] != ':'
    requires ':' !in v
    requires tail == [] || tail[0] == ':'
    ensures SecondPiece(head + ":" + v + tail, ":") == Some(v)
  {
    var line := head + ":" + v + tail;
    var b := |head| + 1;
    OccursAtChar(line, ':', |head|);
    forall i | 0 <= i < |head| ensures !OccursAt(line, ":", i) {
      OccursAtChar(line, ':', i);
      assert line[i] == head[i];
    }
    IndexOfFirst(line, ":", |head|);
    ContainsSound(line, ":");
    SecondPieceSound(line, ":");
    var p := SecondPiece(line, ":").value;
    // The piece cannot stop inside `v`, which has no colon ...
    forall j | b <= j < b + |v| ensures !OccursAt(line, ":", j) {
      OccursAtChar(line, ':', j);
      assert line[j] == v[j - b];
    }
    assert |p| >= |v|;
    // ... nor run past it: at its end comes the tail's colon or the end of the line.
    NotContainsChar(p, ':');
    assert tail != [] ==> line[b + |v|] == tail[0];
    assert |p| <= |v|;
    assert line[b..b + |v|] == v;
  }

  /** Lines before the first `model name` line do not matter, and the first
      one decides even when later ones name another processor. */
  lemma ProcessorNameFirstLine(current: string, lines: seq<string>, k: nat)
    requires forall j :: 0 <= j < |lines| ==> IsLine(lines[j])
    requires k < |lines| && ModelName(lines[k]).Some?
    requires forall j :: 0 <= j < k ==> ModelName(lines[j]).None?
    ensures ProcessorName(current, Some(Unlines(lines))) == ModelName(lines[k]).value
  {
    LinesUnlines(lines);
    FirstSomeAt(lines, ModelName, k);
  }

  /** Without a `model name` line carrying a `:`, the name is kept. */
  lemma ProcessorNameKept(current: string, lines: seq<string>)
    requires forall j :: 0 <= j < |lines| ==> IsLine(lines[j])
    requires forall j :: 0 <= j < |lines| ==> ModelName(lines[j]).None?
    ensures ProcessorName(current, Some(Unlines(lines))) == current
  {
    LinesUnlines(lines);
    FirstSomeNone(lines, ModelName);
  }
}
