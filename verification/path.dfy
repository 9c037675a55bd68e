/**
 * Path Builder: a flat flag name is a path's segments joined by the
 * configured delimiter, with no escaping. `Split` is the reading a consumer
 * of the flat names would apply, and the round-trip lemma says when it
 * recovers the segments.
 */
module PathBuilder {

  /** The segments of `segs` joined by `delim`, in order. */
  function Join(segs: seq<string>, delim: string): string
  {
    if |segs| == 0 then ""
    else if |segs| == 1 then segs[0]
    else segs[0] + delim + Join(segs[1..], delim)
  }

  /** `s` cut at every occurrence of `d`; always at least one piece. */
  function Split(s: string, d: char): (r: seq<string>)
    ensures |r| > 0
    ensures d !in s ==> r == [s]
    decreases |s|
  {
    if |s| == 0 then [""]
    else
      var rest := Split(s[1..], d);
      if s[0] == d then [""] + rest
      else
        assert [s[0]] + s[1..] == s;
        [[s[0]] + rest[0]] + rest[1..]
  }

  /** Splitting `a`, the delimiter and `b` gives `a` followed by the pieces of `b`. */
  lemma {:induction false} SplitAfterSegment(a: string, d: char, b: string)
    requires d !in a
    ensures Split(a + [d] + b, d) == [a] + Split(b, d)
    decreases |a|
  {
    if |a| == 0 {
      assert a + [d] + b == [d] + b;
      assert ([d] + b)[1..] == b;
    } else {
      var s := a + [d] + b;
      assert s[0] == a[0];
      assert s[1..] == a[1..] + [d] + b;
      SplitAfterSegment(a[1..], d, b);
      assert [a[0]] + a[1..] == a;
    }
  }

  /**
   * Join/Split round trip: when the delimiter is one character that no
   * segment contains, splitting the joined name returns exactly the
   * segments. Without that condition the flat name is ambiguous.
   */
  lemma {:induction false} SplitJoin(segs: seq<string>, d: char)
    requires |segs| > 0
    requires forall i :: 0 <= i < |segs| ==> d !in segs[i]
    ensures Split(Join(segs, [d]), d) == segs
    decreases |segs|
  {
    if |segs| > 1 {
      SplitJoin(segs[1..], d);
      SplitAfterSegment(segs[0], d, Join(segs[1..], [d]));
      assert [segs[0]] + segs[1..] == segs;
    }
  }

  /** Under the same conditions, distinct segment sequences give distinct flat names. */
  lemma JoinInjective(a: seq<string>, b: seq<string>, d: char)
    requires |a| > 0 && |b| > 0
    requires forall i :: 0 <= i < |a| ==> d !in a[i]
    requires forall i :: 0 <= i < |b| ==> d !in b[i]
    requires Join(a, [d]) == Join(b, [d])
    ensures a == b
  {
    SplitJoin(a, d);
    SplitJoin(b, d);
  }
}
