/**
 * Skip Matcher: a configured skip path names a table. A leaf below that
 * table keeps its place in the output, but the skip path's segments are
 * removed from the front of its flag name.
 */
module SkipMatcher {
  import opened Document

  /** `prefix` is a strict prefix of `path`: it names a table above the leaf at `path`. */
  predicate IsProperPrefix(prefix: Path, path: Path)
  {
    |prefix| < |path| && path[..|prefix|] == prefix
  }

  /** `r` is what is left of `path` after some of its leading segments are removed. */
  predicate IsSuffix(r: Path, path: Path)
  {
    |r| <= |path| && r == path[|path| - |r|..]
  }

  /** Some configured skip path lies above the leaf at `path`. */
  predicate Skipped(skips: seq<Path>, path: Path)
  {
    exists i :: 0 <= i < |skips| && IsProperPrefix(skips[i], path)
  }

  /**
   * The segments that name the leaf at `path`: the first configured skip
   * path lying above the leaf is removed from the front; when none does,
   * the path is kept whole.
   */
  function StripSkip(skips: seq<Path>, path: Path): (r: Path)
    ensures !Skipped(skips, path) ==> r == path
    ensures Skipped(skips, path) ==>
      exists i :: 0 <= i < |skips| && IsProperPrefix(skips[i], path) && path == skips[i] + r
        && forall j :: 0 <= j < i ==> !IsProperPrefix(skips[j], path)
    ensures IsSuffix(r, path)
    ensures |path| > 0 ==> |r| > 0
  {
    if |skips| == 0 then path
    else if IsProperPrefix(skips[0], path) then path[|skips[0]|..]
    else
      var r := StripSkip(skips[1..], path);
      assert Skipped(skips, path) ==> Skipped(skips[1..], path) by {
        if Skipped(skips, path) {
          var i :| 0 <= i < |skips| && IsProperPrefix(skips[i], path);
          assert i != 0;
          assert skips[1..][i - 1] == skips[i];
        }
      }
      assert Skipped(skips[1..], path) ==> Skipped(skips, path) by {
        if Skipped(skips[1..], path) {
          var i :| 0 <= i < |skips[1..]| && IsProperPrefix(skips[1..][i], path);
          assert skips[i + 1] == skips[1..][i];
        }
      }
      r
  }

  /**
   * A leaf under exactly one configured skip path `s` is named by what
   * follows `s` in its path; e.g. skipping `skipped, more` turns
   * `skipped, more, new, key` into `new, key`.
   */
  lemma StripSingleSkip(s: Path, rest: Path)
    requires |rest| > 0
    ensures StripSkip([s], s + rest) == rest
  {
    assert (s + rest)[..|s|] == s;
    assert (s + rest)[|s|..] == rest;
  }
}
