/**
 * Configuration: the flag-name delimiter and the table paths to skip,
 * built once from a list of options applied in order.
 */
module Configuration {
  import opened Document

  const DefaultDelimiter: string := "."

  datatype Config = Config(delimiter: string, skips: seq<Path>)

  /** The parser's construction options. */
  datatype ParserOption =
    | WithTableDelimiter(delimiter: string)
    | WithTableSkip(path: Path)

  /** `opts[i]` is the last delimiter option in `opts`. */
  predicate LastDelimiterOption(opts: seq<ParserOption>, i: nat)
  {
    && i < |opts|
    && opts[i].WithTableDelimiter?
    && forall j :: i < j < |opts| ==> !opts[j].WithTableDelimiter?
  }

  /**
   * When the last option sets no delimiter, the last delimiter option of
   * `opts` is that of the options before it.
   */
  lemma LastDelimiterOfInit(opts: seq<ParserOption>)
    requires |opts| > 0
    ensures forall i :: 0 <= i < |opts| - 1 ==> opts[..|opts| - 1][i] == opts[i]
    ensures !opts[|opts| - 1].WithTableDelimiter? ==>
      forall i: nat :: LastDelimiterOption(opts, i) ==> i < |opts| - 1 && LastDelimiterOption(opts[..|opts| - 1], i)
  {
  }

  /** The paths of the skip options, in the order they appear. */
  function SkipPaths(opts: seq<ParserOption>): seq<Path>
  {
    if |opts| == 0 then []
    else (if opts[0].WithTableSkip? then [opts[0].path] else []) + SkipPaths(opts[1..])
  }

  /** Skip paths of a concatenation of option lists. */
  lemma {:induction false} SkipPathsAppend(a: seq<ParserOption>, b: seq<ParserOption>)
    ensures SkipPaths(a + b) == SkipPaths(a) + SkipPaths(b)
    decreases |a|
  {
    if |a| > 0 {
      SkipPathsAppend(a[1..], b);
      assert (a + b)[1..] == a[1..] + b;
    } else {
      assert a + b == b;
    }
  }

  /** A path is skipped exactly when some skip option names it. */
  lemma {:induction false} SkipPathsContains(opts: seq<ParserOption>, p: Path)
    ensures p in SkipPaths(opts) <==> WithTableSkip(p) in opts
    decreases |opts|
  {
    if |opts| > 0 {
      SkipPathsContains(opts[1..], p);
      assert opts == [opts[0]] + opts[1..];
    }
  }

  /** Sets one option on a configuration. */
  function ApplyOption(c: Config, opt: ParserOption): Config
  {
    match opt
    case WithTableDelimiter(d) => c.(delimiter := d)
    case WithTableSkip(p) => c.(skips := c.skips + [p])
  }

  /**
   * The configuration the options describe, applying them in order; the
   * skip paths are those of the skip options, in the order they were given.
   */
  function New(opts: seq<ParserOption>): (c: Config)
    ensures c.skips == SkipPaths(opts)
    decreases |opts|
  {
    if |opts| == 0 then Config(DefaultDelimiter, [])
    else
      var last := opts[|opts| - 1];
      var init := opts[..|opts| - 1];
      assert opts == init + [last];
      SkipPathsAppend(init, [last]);
      ApplyOption(New(init), last)
  }

  /**
   * The delimiter of a configuration is the one its last delimiter option
   * gives, and `.` when no option sets one.
   */
  lemma {:induction false} NewDelimiter(opts: seq<ParserOption>)
    ensures (forall i :: 0 <= i < |opts| ==> !opts[i].WithTableDelimiter?) ==> New(opts).delimiter == DefaultDelimiter
    ensures forall i: nat :: LastDelimiterOption(opts, i) ==> New(opts).delimiter == opts[i].delimiter
    decreases |opts|
  {
    if |opts| > 0 {
      var init := opts[..|opts| - 1];
      NewDelimiter(init);
      LastDelimiterOfInit(opts);
    }
  }

  /** The skip paths of a configuration are exactly the paths its skip options name. */
  lemma NewSkips(opts: seq<ParserOption>, p: Path)
    ensures p in New(opts).skips <==> WithTableSkip(p) in opts
  {
    SkipPathsContains(opts, p);
  }
}
