/** Option, and the "first element that yields something" search that several
    scans of the monitor share (the first `model name` line, the first usable
    `VGA compatible controller` line, the first `Mem:` line, the first CPU
    temperature pattern that matches). */
module Wrappers {

  datatype Option<+T> = None | Some(value: T)

  /** The result of `f` on the first element of `xs` for which `f` yields
      something, or None when it yields nothing on every element. */
  function FirstSome<A, T>(xs: seq<A>, f: A -> Option<T>): Option<T> {
    if xs == [] then None
    else if f(xs[0]).Some? then f(xs[0])
    else FirstSome(xs[1..], f)
  }

  /** The element FirstSome picks yields its result and is preceded only by
      elements that yield nothing; when it finds nothing, no element yields. */
  lemma {:induction false} FirstSomeSound<A, T>(xs: seq<A>, f: A -> Option<T>)
    ensures var r := FirstSome(xs, f);
      (r.Some? ==> exists k :: 0 <= k < |xs| && f(xs[k]) == r && NoneBefore(xs, f, k))
      && (r.None? ==> NoneBefore(xs, f, |xs|))
  {
    if xs != [] && f(xs[0]).None? {
      FirstSomeSound(xs[1..], f);
      var r := FirstSome(xs, f);
      if r.Some? {
        var k :| 0 <= k < |xs| - 1 && f(xs[1..][k]) == r && NoneBefore(xs[1..], f, k);
        assert f(xs[k + 1]) == r;
        assert NoneBefore(xs, f, k + 1) by {
          forall j | 0 <= j < k + 1 ensures f(xs[j]).None? {
            if j > 0 { assert xs[j] == xs[1..][j - 1]; }
          }
        }
      } else {
        assert NoneBefore(xs, f, |xs|) by {
          forall j | 0 <= j < |xs| ensures f(xs[j]).None? {
            if j > 0 { assert xs[j] == xs[1..][j - 1]; }
          }
        }
      }
    }
  }

  /** `f` yields nothing on any of the first `k` elements of `xs`. */
  ghost predicate NoneBefore<A, T>(xs: seq<A>, f: A -> Option<T>, k: int)
    requires 0 <= k <= |xs|
  {
    forall j :: 0 <= j < k ==> f(xs[j]).None?
  }

  /** FirstSome is determined by the first element that yields something:
      the converse of its postcondition. */
  lemma {:induction false} FirstSomeAt<A, T>(xs: seq<A>, f: A -> Option<T>, k: int)
    requires 0 <= k < |xs| && f(xs[k]).Some? && NoneBefore(xs, f, k)
    ensures FirstSome(xs, f) == f(xs[k])
  {
    if k > 0 {
      assert f(xs[0]).None?;
      assert NoneBefore(xs[1..], f, k - 1) by {
        forall j | 0 <= j < k - 1 ensures f(xs[1..][j]).None? {
          assert xs[1..][j] == xs[j + 1];
        }
      }
      FirstSomeAt(xs[1..], f, k - 1);
    }
  }

  /** When no element yields anything, neither does FirstSome. */
  lemma {:induction false} FirstSomeNone<A, T>(xs: seq<A>, f: A -> Option<T>)
    requires NoneBefore(xs, f, |xs|)
    ensures FirstSome(xs, f).None?
  {
    if xs != [] {
      assert NoneBefore(xs[1..], f, |xs| - 1) by {
        forall j | 0 <= j < |xs| - 1 ensures f(xs[1..][j]).None? {
          assert xs[1..][j] == xs[j + 1];
        }
      }
      FirstSomeNone(xs[1..], f);
    }
  }

  /** Skipping elements that yield nothing does not change the search:
      the invariant of every loop that scans lines until one yields. */
  lemma {:induction false} FirstSomeSkip<A, T>(xs: seq<A>, f: A -> Option<T>, i: int)
    requires 0 <= i < |xs| && f(xs[i]).None?
    ensures FirstSome(xs[i..], f) == FirstSome(xs[i + 1..], f)
  {
    assert xs[i..][1..] == xs[i + 1..];
  }
}
