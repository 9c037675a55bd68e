/**
 * Flattener: walks the document depth first, in each table's entry order,
 * and emits one (flag name, value text) pair per scalar leaf and one per
 * array element. Flag names come from the Path Builder after the Skip
 * Matcher has removed a skipped table prefix; value texts come from the
 * Value Encoder.
 */
module Flattener {
  import opened Wrappers
  import opened Document
  import opened PathBuilder
  import opened SkipMatcher
  import opened ValueEncoder
  import opened Configuration

  /** One flag assignment handed to the flag set. */
  datatype Pair = Pair(key: string, value: string)

  /** The flag name of the leaf at `path`. */
  function FlagName(c: Config, path: Path): string
  {
    Join(StripSkip(c.skips, path), c.delimiter)
  }

  /**
   * The pairs one leaf contributes: a scalar gives one, an array one per
   * element in array order, all under the same name. A table contributes
   * nothing by itself.
   */
  function EmitLeaf(c: Config, path: Path, n: Node): seq<Pair>
  {
    match n
    case Leaf(v) => [Pair(FlagName(c, path), Encode(v))]
    case Array(xs) => seq(|xs|, i requires 0 <= i < |xs| => Pair(FlagName(c, path), Encode(xs[i])))
    case Table(_) => []
  }

  /** The pairs of the subtree `n` found at `path`. */
  function FlattenNode(c: Config, path: Path, n: Node): seq<Pair>
    decreases n, 1
  {
    if n.Table? then FlattenFrom(c, path, n.entries, 0) else EmitLeaf(c, path, n)
  }

  /** The pairs of the entries `es[k..]` of the table at `prefix`, in entry order. */
  function FlattenFrom(c: Config, prefix: Path, es: seq<(string, Node)>, k: nat): seq<Pair>
    requires k <= |es|
    decreases Table(es), 0, |es| - k
  {
    if k == |es| then []
    else FlattenNode(c, prefix + [es[k].0], es[k].1) + FlattenFrom(c, prefix, es, k + 1)
  }

  /** The pairs of a whole document. */
  function Flatten(c: Config, doc: Doc): seq<Pair>
  {
    FlattenFrom(c, [], doc, 0)
  }

  // ---------------------------------------------------------------------
  // Reference reading: the document's leaves, in traversal order, with
  // neither names nor encodings.

  /** A scalar or array leaf together with its full path. */
  datatype LeafAt = LeafAt(path: Path, node: Node)

  function LeavesNode(path: Path, n: Node): seq<LeafAt>
    decreases n, 1
  {
    if n.Table? then LeavesFrom(path, n.entries, 0) else [LeafAt(path, n)]
  }

  function LeavesFrom(prefix: Path, es: seq<(string, Node)>, k: nat): seq<LeafAt>
    requires k <= |es|
    decreases Table(es), 0, |es| - k
  {
    if k == |es| then []
    else LeavesNode(prefix + [es[k].0], es[k].1) + LeavesFrom(prefix, es, k + 1)
  }

  /** Every non-table node of the document with its path, depth first in entry order. */
  function Leaves(doc: Doc): seq<LeafAt>
  {
    LeavesFrom([], doc, 0)
  }

  /** The pairs of a list of leaves, leaf after leaf. */
  function EmitAll(c: Config, ls: seq<LeafAt>): seq<Pair>
  {
    if |ls| == 0 then [] else EmitLeaf(c, ls[0].path, ls[0].node) + EmitAll(c, ls[1..])
  }

  lemma {:induction false} EmitAllAppend(c: Config, a: seq<LeafAt>, b: seq<LeafAt>)
    ensures EmitAll(c, a + b) == EmitAll(c, a) + EmitAll(c, b)
    decreases |a|
  {
    if |a| == 0 {
      assert a + b == b;
    } else {
      assert (a + b)[1..] == a[1..] + b;
      EmitAllAppend(c, a[1..], b);
    }
  }

  /**
   * The traversal is "enumerate the leaves, then emit each": flattening a
   * subtree gives exactly the pairs of its leaves, in leaf order.
   */
  lemma {:induction false} FlattenNodeEmitsLeaves(c: Config, path: Path, n: Node)
    ensures FlattenNode(c, path, n) == EmitAll(c, LeavesNode(path, n))
    decreases n, 1
  {
    if n.Table? {
      FlattenFromEmitsLeaves(c, path, n.entries, 0);
    } else {
      var ls := LeavesNode(path, n);
      assert ls[1..] == [];
    }
  }

  lemma {:induction false} FlattenFromEmitsLeaves(c: Config, prefix: Path, es: seq<(string, Node)>, k: nat)
    requires k <= |es|
    ensures FlattenFrom(c, prefix, es, k) == EmitAll(c, LeavesFrom(prefix, es, k))
    decreases Table(es), 0, |es| - k
  {
    if k < |es| {
      FlattenNodeEmitsLeaves(c, prefix + [es[k].0], es[k].1);
      FlattenFromEmitsLeaves(c, prefix, es, k + 1);
      EmitAllAppend(c, LeavesNode(prefix + [es[k].0], es[k].1), LeavesFrom(prefix, es, k + 1));
    }
  }

  /** A whole document flattens to the pairs of its leaves, leaf by leaf. */
  lemma FlattenEmitsLeaves(c: Config, doc: Doc)
    ensures Flatten(c, doc) == EmitAll(c, Leaves(doc))
  {
    FlattenFromEmitsLeaves(c, [], doc, 0);
  }

  /** `path` extends `prefix`. */
  predicate Extends(path: Path, prefix: Path)
  {
    |prefix| <= |path| && path[..|prefix|] == prefix
  }

  /**
   * The leaves listed below `n` are exactly its non-table descendants (and
   * `n` itself when it is not a table), each with its full path: nothing
   * is lost and nothing is invented.
   */
  lemma {:induction false} LeavesNodeExact(path: Path, n: Node, l: LeafAt)
    ensures l in LeavesNode(path, n) <==>
      !l.node.Table? && Extends(l.path, path) && NodeAt(n, l.path[|path|..], l.node)
    decreases n, 1
  {
    if n.Table? {
      LeavesFromExact(path, n.entries, 0, l);
      if Extends(l.path, path) {
        var rest := l.path[|path|..];
        if |rest| > 0 {
          assert rest[0] == l.path[|path|];
          assert rest[1..] == l.path[|path| + 1..];
        }
      }
    } else {
      if Extends(l.path, path) && NodeAt(n, l.path[|path|..], l.node) {
        assert |l.path[|path|..]| == 0;
        assert l.path == l.path[..|path|];
      }
    }
  }

  lemma {:induction false} LeavesFromExact(prefix: Path, es: seq<(string, Node)>, k: nat, l: LeafAt)
    requires k <= |es|
    ensures l in LeavesFrom(prefix, es, k) <==>
      && !l.node.Table?
      && |prefix| < |l.path|
      && l.path[..|prefix|] == prefix
      && exists i :: k <= i < |es| && es[i].0 == l.path[|prefix|] && NodeAt(es[i].1, l.path[|prefix| + 1..], l.node)
    decreases Table(es), 0, |es| - k
  {
    if k < |es| {
      var path' := prefix + [es[k].0];
      LeavesNodeExact(path', es[k].1, l);
      LeavesFromExact(prefix, es, k + 1, l);
      if |prefix| < |l.path| {
        assert Extends(l.path, path') <==> l.path[..|prefix|] == prefix && l.path[|prefix|] == es[k].0 by {
          if Extends(l.path, path') {
            assert l.path[..|prefix|] == l.path[..|path'|][..|prefix|];
          }
          if l.path[..|prefix|] == prefix && l.path[|prefix|] == es[k].0 {
            assert l.path[..|path'|] == l.path[..|prefix|] + [l.path[|prefix|]];
          }
        }
        assert l.path[|path'|..] == l.path[|prefix| + 1..];
      } else {
        assert !Extends(l.path, path');
      }
    }
  }

  /**
   * The leaves of a document are exactly the non-table nodes reached by a
   * non-empty path of table keys from the root.
   */
  lemma LeavesExact(doc: Doc, l: LeafAt)
    ensures l in Leaves(doc) <==> !l.node.Table? && |l.path| > 0 && NodeAt(Table(doc), l.path, l.node)
  {
    LeavesFromExact([], doc, 0, l);
    if |l.path| > 0 {
      assert l.path[..0] == [];
      assert l.path[0..] == l.path;
    }
  }

  /** `v` is the encoding of one of the scalars `n` holds. */
  predicate EncodesOneOf(n: Node, v: string)
  {
    exists s :: s in ScalarsOf(n) && v == Encode(s)
  }

  /** `p` is one of the pairs the leaf `l` gives: its name and one of its encoded values. */
  predicate EmittedBy(c: Config, l: LeafAt, p: Pair)
  {
    p.key == FlagName(c, l.path) && EncodesOneOf(l.node, p.value)
  }

  lemma EmitLeafExact(c: Config, l: LeafAt, p: Pair)
    ensures p in EmitLeaf(c, l.path, l.node) <==> EmittedBy(c, l, p)
  {
    var n := l.node;
    if n.Array? && EmittedBy(c, l, p) {
      var s :| s in n.items && p.value == Encode(s);
      var i :| 0 <= i < |n.items| && n.items[i] == s;
      assert EmitLeaf(c, l.path, n)[i] == p;
    }
  }

  /** Some leaf of `ls` gives the pair `p`. */
  predicate SomeLeafEmits(c: Config, ls: seq<LeafAt>, p: Pair)
  {
    exists j :: 0 <= j < |ls| && EmittedBy(c, ls[j], p)
  }

  lemma {:induction false} EmitAllExact(c: Config, ls: seq<LeafAt>, p: Pair)
    ensures p in EmitAll(c, ls) <==> SomeLeafEmits(c, ls, p)
    decreases |ls|
  {
    if |ls| > 0 {
      var rest := ls[1..];
      EmitLeafExact(c, ls[0], p);
      EmitAllExact(c, rest, p);
      assert EmitAll(c, ls) == EmitLeaf(c, ls[0].path, ls[0].node) + EmitAll(c, rest);
      if p in EmitAll(c, ls) {
        if !EmittedBy(c, ls[0], p) {
          var j :| 0 <= j < |rest| && EmittedBy(c, rest[j], p);
          assert ls[j + 1] == rest[j];
        }
      }
      if SomeLeafEmits(c, ls, p) {
        var j :| 0 <= j < |ls| && EmittedBy(c, ls[j], p);
        if j > 0 {
          assert rest[j - 1] == ls[j];
        }
      }
    }
  }

  /** The document holds, at non-empty `path`, a scalar or array `m` that `p` names and encodes. */
  ghost predicate Holds(c: Config, doc: Doc, path: Path, m: Node, p: Pair)
  {
    |path| > 0 && NodeAt(Table(doc), path, m) && p.key == FlagName(c, path) && EncodesOneOf(m, p.value)
  }

  lemma FlattenSound(c: Config, doc: Doc, p: Pair)
    requires p in Flatten(c, doc)
    ensures exists path, m :: Holds(c, doc, path, m, p)
  {
    var ls := Leaves(doc);
    FlattenEmitsLeaves(c, doc);
    EmitAllExact(c, ls, p);
    var j :| 0 <= j < |ls| && EmittedBy(c, ls[j], p);
    LeavesExact(doc, ls[j]);
    assert Holds(c, doc, ls[j].path, ls[j].node, p);
  }

  lemma FlattenComplete(c: Config, doc: Doc, path: Path, m: Node, p: Pair)
    requires Holds(c, doc, path, m, p)
    ensures p in Flatten(c, doc)
  {
    var ls := Leaves(doc);
    assert !m.Table?;
    LeavesExact(doc, LeafAt(path, m));
    var j :| 0 <= j < |ls| && ls[j] == LeafAt(path, m);
    assert EmittedBy(c, ls[j], p);
    EmitAllExact(c, ls, p);
    FlattenEmitsLeaves(c, doc);
  }

  /**
   * What flattening emits, as a set: a pair is emitted exactly when the
   * document holds, at some non-empty path, a scalar or array whose
   * value (or one of whose elements) encodes to the pair's value, and the
   * pair's name is that path's flag name.
   */
  lemma FlattenExactly(c: Config, doc: Doc, p: Pair)
    ensures p in Flatten(c, doc) <==> exists path, m :: Holds(c, doc, path, m, p)
  {
    if p in Flatten(c, doc) {
      FlattenSound(c, doc, p);
    }
    if exists path, m :: Holds(c, doc, path, m, p) {
      var path, m :| Holds(c, doc, path, m, p);
      FlattenComplete(c, doc, path, m, p);
    }
  }

  /** `ps[start..]` begins with one pair per element of `xs`, in order, all named `name`. */
  predicate RunAt(ps: seq<Pair>, start: int, name: string, xs: seq<Scalar>)
  {
    && 0 <= start
    && start + |xs| <= |ps|
    && forall i :: 0 <= i < |xs| ==> ps[start + i] == Pair(name, Encode(xs[i]))
  }

  lemma {:induction false} RunInEmitAll(c: Config, ls: seq<LeafAt>, j: nat)
    requires j < |ls| && ls[j].node.Array?
    ensures exists start :: RunAt(EmitAll(c, ls), start, FlagName(c, ls[j].path), ls[j].node.items)
    decreases j
  {
    var head := EmitLeaf(c, ls[0].path, ls[0].node);
    var ps := EmitAll(c, ls);
    assert ps == head + EmitAll(c, ls[1..]);
    if j == 0 {
      assert RunAt(ps, 0, FlagName(c, ls[0].path), ls[0].node.items);
    } else {
      assert ls[1..][j - 1] == ls[j];
      RunInEmitAll(c, ls[1..], j - 1);
      var start :| RunAt(EmitAll(c, ls[1..]), start, FlagName(c, ls[j].path), ls[j].node.items);
      assert RunAt(ps, |head| + start, FlagName(c, ls[j].path), ls[j].node.items);
    }
  }

  /**
   * An array stored at `path` is emitted as one contiguous run of pairs,
   * one per element in array order, all named by the path's flag name.
   */
  lemma ArrayInOrder(c: Config, doc: Doc, path: Path, xs: seq<Scalar>)
    requires |path| > 0 && NodeAt(Table(doc), path, Array(xs))
    ensures exists start :: RunAt(Flatten(c, doc), start, FlagName(c, path), xs)
  {
    var ls := Leaves(doc);
    LeavesExact(doc, LeafAt(path, Array(xs)));
    var j :| 0 <= j < |ls| && ls[j] == LeafAt(path, Array(xs));
    RunInEmitAll(c, ls, j);
    FlattenEmitsLeaves(c, doc);
  }

  /**
   * Two pairs with the same value that one and the same of `leaves` gives,
   * `p1` under `c1` and `p2` under `c2`: the names are that leaf path's
   * flag names under each configuration.
   */
  ghost predicate SameUpToDelimiter(c1: Config, c2: Config, leaves: seq<LeafAt>, p1: Pair, p2: Pair)
  {
    && p1.value == p2.value
    && exists l :: l in leaves && EmittedBy(c1, l, p1) && EmittedBy(c2, l, p2)
  }

  /** `a` and `b` pair up position by position, differing at most in the delimiter. */
  ghost predicate AllSameUpToDelimiter(c1: Config, c2: Config, leaves: seq<LeafAt>, a: seq<Pair>, b: seq<Pair>)
  {
    |a| == |b| && forall i :: 0 <= i < |a| ==> SameUpToDelimiter(c1, c2, leaves, a[i], b[i])
  }

  lemma SameUpToDelimiterAppend(c1: Config, c2: Config, leaves: seq<LeafAt>, a1: seq<Pair>, a2: seq<Pair>, b1: seq<Pair>, b2: seq<Pair>)
    requires AllSameUpToDelimiter(c1, c2, leaves, a1, a2) && AllSameUpToDelimiter(c1, c2, leaves, b1, b2)
    ensures AllSameUpToDelimiter(c1, c2, leaves, a1 + b1, a2 + b2)
  {
    forall i | 0 <= i < |a1 + b1|
      ensures SameUpToDelimiter(c1, c2, leaves, (a1 + b1)[i], (a2 + b2)[i])
    {
      if i >= |a1| {
        assert (a1 + b1)[i] == b1[i - |a1|] && (a2 + b2)[i] == b2[i - |a1|];
      } else {
        assert (a1 + b1)[i] == a1[i] && (a2 + b2)[i] == a2[i];
      }
    }
  }

  lemma EmitLeafSameSkips(c1: Config, c2: Config, leaves: seq<LeafAt>, l: LeafAt)
    requires c1.skips == c2.skips && l in leaves
    ensures AllSameUpToDelimiter(c1, c2, leaves, EmitLeaf(c1, l.path, l.node), EmitLeaf(c2, l.path, l.node))
  {
    var h1, h2 := EmitLeaf(c1, l.path, l.node), EmitLeaf(c2, l.path, l.node);
    forall i | 0 <= i < |h1|
      ensures SameUpToDelimiter(c1, c2, leaves, h1[i], h2[i])
    {
      EmitLeafExact(c1, l, h1[i]);
      EmitLeafExact(c2, l, h2[i]);
    }
  }

  /** The pairs of a suffix `ls` of `leaves`, under two configurations with the same skip paths. */
  lemma {:induction false} EmitAllSameSkips(c1: Config, c2: Config, leaves: seq<LeafAt>, ls: seq<LeafAt>)
    requires c1.skips == c2.skips
    requires |ls| <= |leaves| && ls == leaves[|leaves| - |ls|..]
    ensures AllSameUpToDelimiter(c1, c2, leaves, EmitAll(c1, ls), EmitAll(c2, ls))
    decreases |ls|
  {
    if |ls| > 0 {
      assert ls[1..] == leaves[|leaves| - |ls| + 1..];
      assert ls[0] == leaves[|leaves| - |ls|];
      EmitAllSameSkips(c1, c2, leaves, ls[1..]);
      EmitLeafSameSkips(c1, c2, leaves, ls[0]);
      SameUpToDelimiterAppend(c1, c2, leaves,
        EmitLeaf(c1, ls[0].path, ls[0].node), EmitLeaf(c2, ls[0].path, ls[0].node),
        EmitAll(c1, ls[1..]), EmitAll(c2, ls[1..]));
    }
  }

  /**
   * The delimiter is surface syntax only: with the same skip paths, two
   * delimiters give the same number of pairs and the same values in the
   * same order, and the two pairs at each position come from one and the
   * same leaf of the document, named by its path under either delimiter.
   */
  lemma DelimiterOnlyChangesNames(c1: Config, c2: Config, doc: Doc)
    requires c1.skips == c2.skips
    ensures |Flatten(c1, doc)| == |Flatten(c2, doc)|
    ensures forall i :: 0 <= i < |Flatten(c1, doc)| ==>
      SameUpToDelimiter(c1, c2, Leaves(doc), Flatten(c1, doc)[i], Flatten(c2, doc)[i])
  {
    var ls := Leaves(doc);
    FlattenEmitsLeaves(c1, doc);
    FlattenEmitsLeaves(c2, doc);
    assert ls == ls[|ls| - |ls|..];
    EmitAllSameSkips(c1, c2, ls, ls);
  }

  /**
   * Equal names do not pair up across delimiters by themselves: the leaf at
   * `a, b` is named `a.b` under `.` but `a-b` under `-`, so the pair
   * (`a.b`, `a.b`) is not one leaf seen under both.
   */
  lemma EqualNamesNotSameUpToDelimiter()
    ensures !SameUpToDelimiter(Config(".", []), Config("-", []),
      [LeafAt(["a", "b"], Leaf(Str("v")))], Pair("a.b", "v"), Pair("a.b", "v"))
  {
    var l := LeafAt(["a", "b"], Leaf(Str("v")));
    assert FlagName(Config("-", []), l.path) == "a-b";
    assert "a-b"[1] != "a.b"[1];
  }

  /** Every key on a path through tables whose keys avoid `d` avoids `d`. */
  lemma {:induction false} PathKeysAvoid(n: Node, path: Path, m: Node, d: char)
    requires NodeKeysAvoid(n, d) && NodeAt(n, path, m)
    ensures forall i :: 0 <= i < |path| ==> d !in path[i]
    decreases n
  {
    if |path| > 0 {
      var i :| 0 <= i < |n.entries| && n.entries[i].0 == path[0] && NodeAt(n.entries[i].1, path[1..], m);
      PathKeysAvoid(n.entries[i].1, path[1..], m, d);
      assert forall j :: 0 < j < |path| ==> path[j] == path[1..][j - 1];
    }
  }

  /**
   * With a one-character delimiter that no table key contains, splitting an
   * emitted flag name on the delimiter gives back the segments of a path
   * holding the value, less any skipped table prefix; with no skip paths
   * configured, that is the full path, so the flat names determine the
   * nesting.
   */
  lemma SplitRecoversPath(c: Config, doc: Doc, d: char, p: Pair)
    requires c.delimiter == [d]
    requires KeysAvoid(doc, d)
    requires p in Flatten(c, doc)
    ensures exists path, m :: Holds(c, doc, path, m, p) && Split(p.key, d) == StripSkip(c.skips, path)
    ensures c.skips == [] ==> exists path, m :: Holds(c, doc, path, m, p) && Split(p.key, d) == path
  {
    FlattenSound(c, doc, p);
    var path, m :| Holds(c, doc, path, m, p);
    PathKeysAvoid(Table(doc), path, m, d);
    var segs := StripSkip(c.skips, path);
    assert forall i :: 0 <= i < |segs| ==> segs[i] == path[|path| - |segs| + i];
    SplitJoin(segs, d);
    assert Holds(c, doc, path, m, p) && Split(p.key, d) == segs;
  }

  // ---------------------------------------------------------------------
  // Handing the pairs to the flag set.

  /** How a pass ends when it does not succeed. */
  datatype Error =
    | ParseError(inner: string)  // the document parser rejected the input
    | SetError(inner: string)    // the flag set rejected a pair

  /** How a pass ended, and the pairs handed to the flag set, in the order they were handed. */
  datatype Run<+E> = Run(outcome: Outcome<E>, handed: seq<Pair>)

  /**
   * Hands the pairs to the flag set's `setFlag` one at a time, in order; the
   * first rejection ends the pass with that rejection, and no later pair is
   * handed over.
   */
  function Visit(ps: seq<Pair>, setFlag: Pair -> Outcome<string>): (r: Run<string>)
    ensures r.outcome.Pass? <==> forall i :: 0 <= i < |ps| ==> setFlag(ps[i]).Pass?
    ensures r.outcome.Pass? ==> r.handed == ps
    ensures r.outcome.Fail? ==>
      exists i :: 0 <= i < |ps| && setFlag(ps[i]) == r.outcome && r.handed == ps[..i + 1] &&
        (forall j :: 0 <= j < i ==> setFlag(ps[j]).Pass?)
  {
    if |ps| == 0 then Run(Pass, [])
    else
      match setFlag(ps[0])
      case Fail(e) => Run(Fail(e), [ps[0]])
      case Pass =>
        var r := Visit(ps[1..], setFlag);
        VisitAccepted(ps, setFlag, r);
        Run(r.outcome, [ps[0]] + r.handed)
  }

  /**
   * When the flag set accepts the first pair, what it makes of the rest
   * (`r`) decides the pass, with the first pair handed over in front.
   */
  lemma VisitAccepted(ps: seq<Pair>, setFlag: Pair -> Outcome<string>, r: Run<string>)
    requires |ps| > 0 && setFlag(ps[0]).Pass?
    requires r.outcome.Pass? <==> forall i :: 0 <= i < |ps| - 1 ==> setFlag(ps[1..][i]).Pass?
    requires r.outcome.Pass? ==> r.handed == ps[1..]
    requires r.outcome.Fail? ==>
      exists i :: 0 <= i < |ps| - 1 && setFlag(ps[1..][i]) == r.outcome && r.handed == ps[1..][..i + 1] &&
        (forall j :: 0 <= j < i ==> setFlag(ps[1..][j]).Pass?)
    ensures r.outcome.Pass? <==> forall i :: 0 <= i < |ps| ==> setFlag(ps[i]).Pass?
    ensures r.outcome.Pass? ==> [ps[0]] + r.handed == ps
    ensures r.outcome.Fail? ==>
      exists i :: 0 <= i < |ps| && setFlag(ps[i]) == r.outcome && [ps[0]] + r.handed == ps[..i + 1] &&
        (forall j :: 0 <= j < i ==> setFlag(ps[j]).Pass?)
  {
    var rest := ps[1..];
    assert [ps[0]] + rest == ps;
    if r.outcome.Fail? {
      var k :| 0 <= k < |ps| - 1 && setFlag(rest[k]) == r.outcome && r.handed == rest[..k + 1] &&
        (forall j :: 0 <= j < k ==> setFlag(rest[j]).Pass?);
      assert [ps[0]] + rest[..k + 1] == ps[..k + 2];
      assert ps[k + 1] == rest[k];
      forall j | 0 <= j < k + 1
        ensures setFlag(ps[j]).Pass?
      {
        if j > 0 {
          assert ps[j] == rest[j - 1];
        }
      }
      assert !setFlag(ps[k + 1]).Pass?;
    } else {
      forall i | 0 <= i < |ps|
        ensures setFlag(ps[i]).Pass?
      {
        if i > 0 {
          assert ps[i] == rest[i - 1];
        }
      }
    }
  }

  /**
   * One parse: the document parser's outcome (`parsed`) is flattened with
   * configuration `c` and the pairs handed to `setFlag`. A parser failure is
   * reported as a parse error carrying the parser's message, and no pair is
   * handed over; an empty document hands over nothing and succeeds;
   * otherwise the pass succeeds exactly when the flag set accepts every
   * emitted pair, after all of them were handed over, and fails with the
   * first rejection unchanged, after handing over the pairs up to it.
   */
  function Parse(c: Config, parsed: Result<Doc, string>, setFlag: Pair -> Outcome<string>): (r: Run<Error>)
    ensures parsed.Failure? ==> r == Run(Fail(ParseError(parsed.error)), [])
    ensures parsed == Success([]) ==> r == Run(Pass, [])
    ensures parsed.Success? ==>
      (r.outcome.Pass? <==> forall p :: p in Flatten(c, parsed.value) ==> setFlag(p).Pass?)
    ensures parsed.Success? && r.outcome.Pass? ==> r.handed == Flatten(c, parsed.value)
    ensures parsed.Success? && r.outcome.Fail? ==>
      var ps := Flatten(c, parsed.value);
      && r.outcome.error.SetError?
      && (exists i :: 0 <= i < |ps| && setFlag(ps[i]) == Fail(r.outcome.error.inner) && r.handed == ps[..i + 1] &&
            (forall j :: 0 <= j < i ==> setFlag(ps[j]).Pass?))
  {
    match parsed
    case Failure(e) => Run(Fail(ParseError(e)), [])
    case Success(doc) =>
      var v := Visit(Flatten(c, doc), setFlag);
      match v.outcome
      case Pass => Run(Pass, v.handed)
      case Fail(e) => Run(Fail(SetError(e)), v.handed)
  }
}
