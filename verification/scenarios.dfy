/**
 * The documents the parser's tests feed it, and what each configuration
 * the tests use makes of them.
 *
 * Proof layout: the solver handles a concrete document, a concrete
 * configuration and concrete flag names badly when all three meet in one
 * proof. So each scenario is proved in layers: first for any
 * configuration, with the flag names left symbolic (`BasicFlatten`,
 * `TableFlatten`); then for any one-character delimiter (`TableUnskipped`,
 * `TableSkipped`); and only at the end for the options a test passes.
 * The end lemmas take the configuration as a parameter `c` with
 * `requires c == New([...])` rather than mentioning `New([...])` in their
 * conclusions, which keeps `New` from being unfolded alongside the string
 * literals. Lists of leaves and pairs are built as nested appends
 * (`[a] + ([b] + ...)`) for the same reason: the solver takes them apart
 * one element at a time, which it does not do well for long displays.
 * Each step of such a chain is a small lemma of its own (`EmitAllOne`,
 * `EmitAllFront`, `EmitStr`, `ThreeElements`) whose conclusion the next
 * step uses as it stands, so no single proof has to unfold a whole list.
 */
module Scenarios {
  import opened Wrappers
  import opened Document
  import opened PathBuilder
  import opened SkipMatcher
  import opened ValueEncoder
  import opened Configuration
  import opened Flattener
  import opened FlagCollection

  /** A leaf under a chain of single-entry tables, one per key of `keys`. */
  function Chain(keys: Path, n: Node): Node
  {
    if |keys| == 0 then n else Table([(keys[0], Chain(keys[1..], n))])
  }

  /** `basic.toml`: top-level keys only, including an array. */
  const BasicDoc: Doc := [
    ("s", Leaf(Str("s"))),
    ("i", Leaf(Int(10))),
    ("f", Leaf(Float("3.14e+10"))),
    ("b", Leaf(Bool(true))),
    ("d", Leaf(Str("5s"))),
    ("x", Array([Str("1"), Str("a"), Str("\U{1F44D}")]))
  ]

  /** `table.toml`: nested tables, one holding an array, one under `skipped.more`. */
  const TableDoc: Doc := [
    ("string", Chain(["key"], Leaf(Str("a string")))),
    ("float", Chain(["nested", "key"], Leaf(Float("1.23")))),
    ("strings", Chain(["nested", "key"], Array([Str("one"), Str("two"), Str("three")]))),
    ("skipped", Chain(["more", "new", "key"], Leaf(Str("skipped"))))
  ]

  /** A chain of single-entry tables has one leaf, at the chain's keys. */
  lemma {:induction false} ChainLeaves(path: Path, keys: Path, n: Node)
    requires !n.Table?
    ensures LeavesNode(path, Chain(keys, n)) == [LeafAt(path + keys, n)]
    decreases |keys|
  {
    if |keys| == 0 {
      assert path + keys == path;
    } else {
      var es := [(keys[0], Chain(keys[1..], n))];
      ChainLeaves(path + [keys[0]], keys[1..], n);
      assert path + [keys[0]] + keys[1..] == path + keys;
      assert LeavesFrom(path, es, 1) == [];
    }
  }

  lemma EmitAllCons(c: Config, l: LeafAt, ls: seq<LeafAt>)
    ensures EmitAll(c, [l] + ls) == EmitLeaf(c, l.path, l.node) + EmitAll(c, ls)
  {
    assert ([l] + ls)[1..] == ls;
  }

  /** A single leaf emits its own pairs. */
  lemma EmitAllOne(c: Config, l: LeafAt, e: seq<Pair>)
    requires EmitLeaf(c, l.path, l.node) == e
    ensures EmitAll(c, [l]) == e
  {
    EmitAllCons(c, l, []);
    assert [l] + [] == [l];
    assert e + [] == e;
  }

  /** A leaf in front of a list emits its pairs in front of the list's. */
  lemma EmitAllFront(c: Config, l: LeafAt, ls: seq<LeafAt>, e: seq<Pair>, rest: seq<Pair>)
    requires EmitLeaf(c, l.path, l.node) == e && EmitAll(c, ls) == rest
    ensures EmitAll(c, [l] + ls) == e + rest
  {
    EmitAllCons(c, l, ls);
  }

  /** The leaves of `basic.toml`: each top-level entry, at its own key. */
  lemma BasicLeaves()
    ensures Leaves(BasicDoc) == BasicLeafList
  {
    var d := BasicDoc;
    var e: Path := [];
    assert LeavesFrom(e, d, 6) == [];
    forall k | 0 <= k < 6
      ensures LeavesFrom(e, d, k) == [LeafAt([d[k].0], d[k].1)] + LeavesFrom(e, d, k + 1)
    {
      assert e + [d[k].0] == [d[k].0];
    }
  }

  /** With no skip paths, a one-segment path is named by its one key. */
  lemma TopLevelName(c: Config, k: string)
    requires c.skips == []
    ensures FlagName(c, [k]) == k
  {
  }

  /** The integer 10 is written `10`. */
  lemma TenEncodes()
    ensures Encode(Int(10)) == "10"
  {
    assert FormatNat(1) == "1";
    assert FormatNat(10) == FormatNat(1) + [DigitChar(0)];
  }

  /** The eight pairs `basic.toml` yields, given the six flag names. */
  function BasicPairs(s: string, i: string, f: string, b: string, d: string, x: string): seq<Pair>
  {
    [ Pair(s, "s"), Pair(i, "10"), Pair(f, "3.14e+10"), Pair(b, "true"), Pair(d, "5s"),
      Pair(x, "1"), Pair(x, "a"), Pair(x, "\U{1F44D}") ]
  }

  /** Six leaves emit the concatenation of their pairs (see the proof layout note above). */
  lemma EmitSixConcat(c: Config, l1: LeafAt, l2: LeafAt, l3: LeafAt, l4: LeafAt, l5: LeafAt, l6: LeafAt,
                      e1: seq<Pair>, e2: seq<Pair>, e3: seq<Pair>, e4: seq<Pair>, e5: seq<Pair>, e6: seq<Pair>)
    requires EmitLeaf(c, l1.path, l1.node) == e1 && EmitLeaf(c, l2.path, l2.node) == e2
    requires EmitLeaf(c, l3.path, l3.node) == e3 && EmitLeaf(c, l4.path, l4.node) == e4
    requires EmitLeaf(c, l5.path, l5.node) == e5 && EmitLeaf(c, l6.path, l6.node) == e6
    ensures EmitAll(c, [l1] + ([l2] + ([l3] + ([l4] + ([l5] + [l6]))))) == e1 + (e2 + (e3 + (e4 + (e5 + e6))))
  {
    EmitAllOne(c, l6, e6);
    EmitAllFront(c, l5, [l6], e5, e6);
    EmitAllFront(c, l4, [l5] + [l6], e4, e5 + e6);
    EmitAllFront(c, l3, [l4] + ([l5] + [l6]), e3, e4 + (e5 + e6));
    EmitAllFront(c, l2, [l3] + ([l4] + ([l5] + [l6])), e2, e3 + (e4 + (e5 + e6)));
    EmitAllFront(c, l1, [l2] + ([l3] + ([l4] + ([l5] + [l6]))), e1, e2 + (e3 + (e4 + (e5 + e6))));
  }

  const BasicLeafList: seq<LeafAt> := [
    LeafAt(["s"], Leaf(Str("s"))), LeafAt(["i"], Leaf(Int(10))), LeafAt(["f"], Leaf(Float("3.14e+10"))),
    LeafAt(["b"], Leaf(Bool(true))), LeafAt(["d"], Leaf(Str("5s"))),
    LeafAt(["x"], Array([Str("1"), Str("a"), Str("\U{1F44D}")]))]

  /** Five top-level scalars followed by a top-level array of three strings. */
  lemma EmitFiveAndArray(c: Config, k: seq<string>, v: seq<Scalar>, a: string, b: string, e: string)
    requires |k| == 6 && |v| == 5
    ensures EmitAll(c, [LeafAt([k[0]], Leaf(v[0]))] + ([LeafAt([k[1]], Leaf(v[1]))] + ([LeafAt([k[2]], Leaf(v[2]))] +
                        ([LeafAt([k[3]], Leaf(v[3]))] + ([LeafAt([k[4]], Leaf(v[4]))] + [LeafAt([k[5]], Array([Str(a), Str(b), Str(e)]))])))))
      == [Pair(FlagName(c, [k[0]]), Encode(v[0])), Pair(FlagName(c, [k[1]]), Encode(v[1])), Pair(FlagName(c, [k[2]]), Encode(v[2])),
          Pair(FlagName(c, [k[3]]), Encode(v[3])), Pair(FlagName(c, [k[4]]), Encode(v[4])),
          Pair(FlagName(c, [k[5]]), a), Pair(FlagName(c, [k[5]]), b), Pair(FlagName(c, [k[5]]), e)]
  {
    var x := FlagName(c, [k[5]]);
    EmitScalar(c, [k[0]], v[0]);
    EmitScalar(c, [k[1]], v[1]);
    EmitScalar(c, [k[2]], v[2]);
    EmitScalar(c, [k[3]], v[3]);
    EmitScalar(c, [k[4]], v[4]);
    EmitThree(c, [k[5]], a, b, e);
    EmitSixConcat(c, LeafAt([k[0]], Leaf(v[0])), LeafAt([k[1]], Leaf(v[1])), LeafAt([k[2]], Leaf(v[2])),
      LeafAt([k[3]], Leaf(v[3])), LeafAt([k[4]], Leaf(v[4])), LeafAt([k[5]], Array([Str(a), Str(b), Str(e)])),
      [Pair(FlagName(c, [k[0]]), Encode(v[0]))], [Pair(FlagName(c, [k[1]]), Encode(v[1]))], [Pair(FlagName(c, [k[2]]), Encode(v[2]))],
      [Pair(FlagName(c, [k[3]]), Encode(v[3]))], [Pair(FlagName(c, [k[4]]), Encode(v[4]))],
      [Pair(x, a), Pair(x, b), Pair(x, e)]);
    ConcatEight(Pair(FlagName(c, [k[0]]), Encode(v[0])), Pair(FlagName(c, [k[1]]), Encode(v[1])), Pair(FlagName(c, [k[2]]), Encode(v[2])),
      Pair(FlagName(c, [k[3]]), Encode(v[3])), Pair(FlagName(c, [k[4]]), Encode(v[4])), Pair(x, a), Pair(x, b), Pair(x, e));
  }

  /** The scalars of `basic.toml`, in order, with the texts they are written as. */
  const BasicKeys: seq<string> := ["s", "i", "f", "b", "d", "x"]
  const BasicScalars: seq<Scalar> := [Str("s"), Int(10), Float("3.14e+10"), Bool(true), Str("5s")]

  lemma BasicTexts()
    ensures Encode(BasicScalars[0]) == "s" && Encode(BasicScalars[1]) == "10" && Encode(BasicScalars[2]) == "3.14e+10"
    ensures Encode(BasicScalars[3]) == "true" && Encode(BasicScalars[4]) == "5s"
  {
    TenEncodes();
  }

  lemma BasicLeafListShape()
    ensures BasicLeafList ==
      [LeafAt([BasicKeys[0]], Leaf(BasicScalars[0]))] + ([LeafAt([BasicKeys[1]], Leaf(BasicScalars[1]))] +
      ([LeafAt([BasicKeys[2]], Leaf(BasicScalars[2]))] + ([LeafAt([BasicKeys[3]], Leaf(BasicScalars[3]))] +
      ([LeafAt([BasicKeys[4]], Leaf(BasicScalars[4]))] + [LeafAt([BasicKeys[5]], Array([Str("1"), Str("a"), Str("\U{1F44D}")]))]))))
  {
  }

  lemma BasicEmit(c: Config)
    ensures EmitAll(c, BasicLeafList) == BasicPairs(
      FlagName(c, ["s"]), FlagName(c, ["i"]), FlagName(c, ["f"]), FlagName(c, ["b"]), FlagName(c, ["d"]), FlagName(c, ["x"]))
  {
    BasicLeafListShape();
    EmitFiveAndArray(c, BasicKeys, BasicScalars, "1", "a", "\U{1F44D}");
    BasicTexts();
  }

  lemma ConcatEight(p1: Pair, p2: Pair, p3: Pair, p4: Pair, p5: Pair, p6: Pair, p7: Pair, p8: Pair)
    ensures [p1] + ([p2] + ([p3] + ([p4] + ([p5] + [p6, p7, p8])))) == [p1, p2, p3, p4, p5, p6, p7, p8]
  {
  }

  /** `basic.toml` under any configuration: each pair is named by its top-level key's flag name. */
  lemma BasicFlatten(c: Config)
    ensures Flatten(c, BasicDoc) == BasicPairs(
      FlagName(c, ["s"]), FlagName(c, ["i"]), FlagName(c, ["f"]), FlagName(c, ["b"]), FlagName(c, ["d"]), FlagName(c, ["x"]))
  {
    FlattenEmitsLeaves(c, BasicDoc);
    BasicLeaves();
    BasicEmit(c);
  }

  /**
   * With the default configuration every top-level key is its own flag,
   * and the array sets its flag three times in order.
   */
  lemma BasicDefaults(c: Config)
    requires c == New([])
    ensures Flatten(c, BasicDoc) == [
      Pair("s", "s"), Pair("i", "10"), Pair("f", "3.14e+10"), Pair("b", "true"), Pair("d", "5s"),
      Pair("x", "1"), Pair("x", "a"), Pair("x", "\U{1F44D}")]
  {
    assert c.skips == [];
    TopLevelName(c, "s");
    TopLevelName(c, "i");
    TopLevelName(c, "f");
    TopLevelName(c, "b");
    TopLevelName(c, "d");
    TopLevelName(c, "x");
    BasicFlatten(c);
  }

  /** The integer 10 and the boolean true of `basic.toml` read back as 10 and true. */
  lemma BasicReadBack()
    ensures ReadBack(IntFlag, Encode(BasicDoc[1].1.value)) == Some(Int(10))
    ensures ReadBack(BoolFlag, Encode(BasicDoc[3].1.value)) == Some(Bool(true))
  {
    EncodeReadBack(BasicDoc[1].1.value);
    EncodeReadBack(BasicDoc[3].1.value);
  }

  /** An empty document sets no flag, whatever the configuration. */
  lemma EmptyDocument(c: Config)
    ensures Flatten(c, []) == []
  {
  }

  /** The four pairs `table.toml` yields, given the four flag names. */
  function TablePairs(stringKey: string, floatKey: string, stringsKey: string, skipKey: string): seq<Pair>
  {
    [ Pair(stringKey, "a string"), Pair(floatKey, "1.23"),
      Pair(stringsKey, "one"), Pair(stringsKey, "two"), Pair(stringsKey, "three"),
      Pair(skipKey, "skipped") ]
  }

  const StringPath: Path := ["string", "key"]
  const FloatPath: Path := ["float", "nested", "key"]
  const StringsPath: Path := ["strings", "nested", "key"]
  const SkippedPath: Path := ["skipped", "more", "new", "key"]

  /** The leaves of `table.toml`, in document order. */
  lemma TableLeaves()
    ensures Leaves(TableDoc) == TableLeafList
  {
    var d := TableDoc;
    ChainLeaves(["string"], ["key"], Leaf(Str("a string")));
    ChainLeaves(["float"], ["nested", "key"], Leaf(Float("1.23")));
    ChainLeaves(["strings"], ["nested", "key"], Array([Str("one"), Str("two"), Str("three")]));
    ChainLeaves(["skipped"], ["more", "new", "key"], Leaf(Str("skipped")));
    assert ["string"] + ["key"] == StringPath;
    assert ["float"] + ["nested", "key"] == FloatPath;
    assert ["strings"] + ["nested", "key"] == StringsPath;
    assert ["skipped"] + ["more", "new", "key"] == SkippedPath;
    var e: Path := [];
    assert LeavesFrom(e, d, 4) == [];
    forall k | 0 <= k < 4
      ensures LeavesFrom(e, d, k) == LeavesNode([d[k].0], d[k].1) + LeavesFrom(e, d, k + 1)
    {
      assert e + [d[k].0] == [d[k].0];
    }
  }

  lemma EmitScalar(c: Config, path: Path, v: Scalar)
    ensures EmitLeaf(c, path, Leaf(v)) == [Pair(FlagName(c, path), Encode(v))]
  {
  }

  /** A string leaf is handed over as its own text. */
  lemma EmitStr(c: Config, path: Path, t: string)
    ensures EmitLeaf(c, path, Leaf(Str(t))) == [Pair(FlagName(c, path), t)]
  {
    EmitScalar(c, path, Str(t));
    EncodeStr(t);
  }

  /** A float leaf is handed over as the text it carries. */
  lemma EmitFloat(c: Config, path: Path, t: string)
    ensures EmitLeaf(c, path, Leaf(Float(t))) == [Pair(FlagName(c, path), t)]
  {
    EmitScalar(c, path, Float(t));
    EncodeFloat(t);
  }

  /** The `i`th pair of an array leaf carries the array's `i`th element. */
  lemma EmitArrayAt(c: Config, path: Path, xs: seq<Scalar>, i: nat)
    requires i < |xs|
    ensures |EmitLeaf(c, path, Array(xs))| == |xs|
    ensures EmitLeaf(c, path, Array(xs))[i] == Pair(FlagName(c, path), Encode(xs[i]))
  {
  }

  /** A sequence of three elements is the display of its elements. */
  lemma ThreeElements<T>(r: seq<T>)
    requires |r| == 3
    ensures r == [r[0], r[1], r[2]]
  {
  }

  lemma EmitThree(c: Config, path: Path, a: string, b: string, e: string)
    ensures EmitLeaf(c, path, Array([Str(a), Str(b), Str(e)])) ==
      [Pair(FlagName(c, path), a), Pair(FlagName(c, path), b), Pair(FlagName(c, path), e)]
  {
    var xs := [Str(a), Str(b), Str(e)];
    var r := EmitLeaf(c, path, Array(xs));
    EmitArrayAt(c, path, xs, 0);
    EmitArrayAt(c, path, xs, 1);
    EmitArrayAt(c, path, xs, 2);
    ThreeElements(r);
  }

  const TableLeafList: seq<LeafAt> := [
    LeafAt(StringPath, Leaf(Str("a string"))),
    LeafAt(FloatPath, Leaf(Float("1.23"))),
    LeafAt(StringsPath, Array([Str("one"), Str("two"), Str("three")])),
    LeafAt(SkippedPath, Leaf(Str("skipped")))]

  lemma TableEmit(c: Config)
    ensures EmitAll(c, TableLeafList) ==
      TablePairs(FlagName(c, StringPath), FlagName(c, FloatPath), FlagName(c, StringsPath), FlagName(c, SkippedPath))
  {
    var n1, n2, n3, n4 := FlagName(c, StringPath), FlagName(c, FloatPath), FlagName(c, StringsPath), FlagName(c, SkippedPath);
    var l1 := LeafAt(StringPath, Leaf(Str("a string")));
    var l2 := LeafAt(FloatPath, Leaf(Float("1.23")));
    var l3 := LeafAt(StringsPath, Array([Str("one"), Str("two"), Str("three")]));
    var l4 := LeafAt(SkippedPath, Leaf(Str("skipped")));
    var e1 := [Pair(n1, "a string")];
    var e2 := [Pair(n2, "1.23")];
    var e3 := [Pair(n3, "one"), Pair(n3, "two"), Pair(n3, "three")];
    var e4 := [Pair(n4, "skipped")];
    EmitStr(c, l1.path, "a string");
    EmitFloat(c, l2.path, "1.23");
    EmitThree(c, l3.path, "one", "two", "three");
    EmitStr(c, l4.path, "skipped");
    EmitFourConcat(c, l1, l2, l3, l4, e1, e2, e3, e4);
    assert TableLeafList == [l1, l2, l3, l4];
    TablePairsConcat(n1, n2, n3, n4);
  }

  lemma EmitFourConcat(c: Config, l1: LeafAt, l2: LeafAt, l3: LeafAt, l4: LeafAt,
                       e1: seq<Pair>, e2: seq<Pair>, e3: seq<Pair>, e4: seq<Pair>)
    requires EmitLeaf(c, l1.path, l1.node) == e1 && EmitLeaf(c, l2.path, l2.node) == e2
    requires EmitLeaf(c, l3.path, l3.node) == e3 && EmitLeaf(c, l4.path, l4.node) == e4
    ensures EmitAll(c, [l1, l2, l3, l4]) == e1 + (e2 + (e3 + e4))
  {
    assert [l1, l2, l3, l4] == [l1] + ([l2] + ([l3] + [l4]));
    EmitAllOne(c, l4, e4);
    EmitAllFront(c, l3, [l4], e3, e4);
    EmitAllFront(c, l2, [l3] + [l4], e2, e3 + e4);
    EmitAllFront(c, l1, [l2] + ([l3] + [l4]), e1, e2 + (e3 + e4));
  }

  /** `table.toml` under any configuration: the flag names are those of the four leaf paths. */
  lemma TableFlatten(c: Config)
    ensures Flatten(c, TableDoc) ==
      TablePairs(FlagName(c, StringPath), FlagName(c, FloatPath), FlagName(c, StringsPath), FlagName(c, SkippedPath))
  {
    FlattenEmitsLeaves(c, TableDoc);
    TableLeaves();
    TableEmit(c);
  }

  lemma TablePairsConcat(n1: string, n2: string, n3: string, n4: string)
    ensures [Pair(n1, "a string")] + ([Pair(n2, "1.23")] + ([Pair(n3, "one"), Pair(n3, "two"), Pair(n3, "three")] + [Pair(n4, "skipped")]))
      == TablePairs(n1, n2, n3, n4)
  {
  }

  lemma JoinTwo(a: string, b: string, d: char)
    ensures Join([a, b], [d]) == a + [d] + b
  {
    assert [a, b][1..] == [b];
  }

  lemma JoinThree(a: string, b: string, e: string, d: char)
    ensures Join([a, b, e], [d]) == a + [d] + b + [d] + e
  {
    assert [a, b, e][1..] == [b, e];
    JoinTwo(b, e, d);
  }

  lemma JoinFour(a: string, b: string, e: string, f: string, d: char)
    ensures Join([a, b, e, f], [d]) == a + [d] + b + [d] + e + [d] + f
  {
    assert [a, b, e, f][1..] == [b, e, f];
    JoinThree(b, e, f, d);
  }

  /** The names of the `table.toml` paths when nothing is skipped. */
  lemma TableNames(c: Config, d: char)
    requires c == Config([d], [])
    ensures FlagName(c, StringPath) == "string" + [d] + "key"
    ensures FlagName(c, FloatPath) == "float" + [d] + "nested" + [d] + "key"
    ensures FlagName(c, StringsPath) == "strings" + [d] + "nested" + [d] + "key"
    ensures FlagName(c, SkippedPath) == "skipped" + [d] + "more" + [d] + "new" + [d] + "key"
  {
    JoinTwo("string", "key", d);
    JoinThree("float", "nested", "key", d);
    JoinThree("strings", "nested", "key", d);
    JoinFour("skipped", "more", "new", "key", d);
  }

  /** The configurations the tests build from their options. */
  lemma NewDash()
    ensures New([WithTableDelimiter("-")]) == Config("-", [])
  {
    var opts := [WithTableDelimiter("-")];
    assert opts[..0] == [];
  }

  lemma NewSkip()
    ensures New([WithTableSkip(["skipped", "more"])]) == Config(".", [["skipped", "more"]])
  {
    var opts := [WithTableSkip(["skipped", "more"])];
    assert opts[..0] == [];
  }

  lemma NewDashSkip()
    ensures New([WithTableDelimiter("-"), WithTableSkip(["skipped", "more"])]) == Config("-", [["skipped", "more"]])
  {
    var opts := [WithTableDelimiter("-"), WithTableSkip(["skipped", "more"])];
    assert opts[..1] == [WithTableDelimiter("-")];
    NewDash();
  }

  /** `table.toml` with delimiter `d` and nothing skipped. */
  lemma TableUnskipped(c: Config, d: char)
    requires c == Config([d], [])
    ensures Flatten(c, TableDoc) == TablePairs(
      "string" + [d] + "key", "float" + [d] + "nested" + [d] + "key",
      "strings" + [d] + "nested" + [d] + "key", "skipped" + [d] + "more" + [d] + "new" + [d] + "key")
  {
    TableNames(c, d);
    TableFlatten(c);
  }

  /** `table.toml` with delimiter `d` and `skipped, more` skipped. */
  lemma TableSkipped(c: Config, d: char)
    requires c == Config([d], [["skipped", "more"]])
    ensures Flatten(c, TableDoc) == TablePairs(
      "string" + [d] + "key", "float" + [d] + "nested" + [d] + "key",
      "strings" + [d] + "nested" + [d] + "key", "new" + [d] + "key")
  {
    TableSkippedNames(c, d);
    TableFlatten(c);
  }

  /** The flag names of the tests, spelled out for `.` and for `-`. */
  lemma DotNames()
    ensures "string" + ['.'] + "key" == "string.key"
    ensures "float" + ['.'] + "nested" + ['.'] + "key" == "float.nested.key"
    ensures "strings" + ['.'] + "nested" + ['.'] + "key" == "strings.nested.key"
    ensures "skipped" + ['.'] + "more" + ['.'] + "new" + ['.'] + "key" == "skipped.more.new.key"
    ensures "new" + ['.'] + "key" == "new.key"
  {
  }

  lemma DashNames()
    ensures "string" + ['-'] + "key" == "string-key"
    ensures "float" + ['-'] + "nested" + ['-'] + "key" == "float-nested-key"
    ensures "strings" + ['-'] + "nested" + ['-'] + "key" == "strings-nested-key"
    ensures "skipped" + ['-'] + "more" + ['-'] + "new" + ['-'] + "key" == "skipped-more-new-key"
    ensures "new" + ['-'] + "key" == "new-key"
  {
  }

  /**
   * Without skip paths, a nested leaf's flag name is its table keys joined
   * by `.` in the default configuration.
   */
  lemma TablesDefault(c: Config)
    requires c == New([])
    ensures Flatten(c, TableDoc) ==
      TablePairs("string.key", "float.nested.key", "strings.nested.key", "skipped.more.new.key")
  {
    TableUnskipped(c, '.');
    DotNames();
  }

  /** With the delimiter `-`, the same segments are joined by `-` and the values are unchanged. */
  lemma TablesDash(c: Config)
    requires c == New([WithTableDelimiter("-")])
    ensures Flatten(c, TableDoc) ==
      TablePairs("string-key", "float-nested-key", "strings-nested-key", "skipped-more-new-key")
  {
    NewDash();
    TableUnskipped(c, '-');
    DashNames();
  }

  /**
   * The names of the `table.toml` paths with `skipped, more` skipped: only
   * the leaf under that table loses segments.
   */
  lemma TableSkippedNames(c: Config, d: char)
    requires c == Config([d], [["skipped", "more"]])
    ensures FlagName(c, StringPath) == "string" + [d] + "key"
    ensures FlagName(c, FloatPath) == "float" + [d] + "nested" + [d] + "key"
    ensures FlagName(c, StringsPath) == "strings" + [d] + "nested" + [d] + "key"
    ensures FlagName(c, SkippedPath) == "new" + [d] + "key"
  {
    var skip: Path := ["skipped", "more"];
    assert StringPath[..2][0] != skip[0] by { assert |StringPath[0]| != |skip[0]|; }
    assert FloatPath[..2][0] != skip[0] by { assert FloatPath[0][0] != skip[0][0]; }
    assert StringsPath[..2][0] != skip[0] by { assert StringsPath[0][1] != skip[0][1]; }
    StripSingleSkip(skip, ["new", "key"]);
    assert SkippedPath == skip + ["new", "key"];
    assert StripSkip(c.skips, StringPath) == StringPath;
    assert StripSkip(c.skips, FloatPath) == FloatPath;
    assert StripSkip(c.skips, StringsPath) == StringsPath;
    JoinTwo("string", "key", d);
    JoinThree("float", "nested", "key", d);
    JoinThree("strings", "nested", "key", d);
    JoinTwo("new", "key", d);
  }

  /**
   * Skipping `skipped, more` keeps the leaf below it and its value but
   * drops those two segments from its name; the other names are unchanged.
   */
  lemma TablesSkippedDefault(c: Config)
    requires c == New([WithTableSkip(["skipped", "more"])])
    ensures Flatten(c, TableDoc) ==
      TablePairs("string.key", "float.nested.key", "strings.nested.key", "new.key")
  {
    NewSkip();
    TableSkipped(c, '.');
    DotNames();
  }

  /** The delimiter option composes with the skip option. */
  lemma TablesSkippedDash(c: Config)
    requires c == New([WithTableDelimiter("-"), WithTableSkip(["skipped", "more"])])
    ensures Flatten(c, TableDoc) ==
      TablePairs("string-key", "float-nested-key", "strings-nested-key", "new-key")
  {
    NewDashSkip();
    TableSkipped(c, '-');
    DashNames();
  }

  lemma ValuesForCons(p: Pair, ps: seq<Pair>, name: string)
    ensures ValuesFor([p] + ps, name) == (if p.key == name then [p.value] else []) + ValuesFor(ps, name)
  {
    assert ([p] + ps)[1..] == ps;
  }

  /** The array's run of `table.toml` pairs, followed by a pair named otherwise, collects the array. */
  lemma ArrayRunValuesFor(n3: string, n4: string)
    requires n4 != n3
    ensures ValuesFor([Pair(n3, "one")] + ([Pair(n3, "two")] + ([Pair(n3, "three")] + ([Pair(n4, "skipped")] + []))), n3)
      == ["one", "two", "three"]
  {
    var p3, p4, p5, p6 := Pair(n3, "one"), Pair(n3, "two"), Pair(n3, "three"), Pair(n4, "skipped");
    ValuesForCons(p6, [], n3);
    ValuesForCons(p5, [p6] + [], n3);
    ValuesForCons(p4, [p5] + ([p6] + []), n3);
    ValuesForCons(p3, [p4] + ([p5] + ([p6] + [])), n3);
  }

  /** Among the `table.toml` pairs, only the array's are named `n3`. */
  lemma TableValuesFor(n1: string, n2: string, n3: string, n4: string)
    requires n1 != n3 && n2 != n3 && n4 != n3
    ensures ValuesFor(TablePairs(n1, n2, n3, n4), n3) == ["one", "two", "three"]
  {
    var p1, p2 := Pair(n1, "a string"), Pair(n2, "1.23");
    var run := [Pair(n3, "one")] + ([Pair(n3, "two")] + ([Pair(n3, "three")] + ([Pair(n4, "skipped")] + [])));
    assert TablePairs(n1, n2, n3, n4) == [p1] + ([p2] + run);
    ArrayRunValuesFor(n3, n4);
    ValuesForCons(p2, run, n3);
    ValuesForCons(p1, [p2] + run, n3);
  }

  /** The string-slice flag collects the array's elements in order. */
  lemma TableArrayCollected(c: Config)
    requires c == New([])
    ensures ValuesFor(Flatten(c, TableDoc), "strings.nested.key") == ["one", "two", "three"]
  {
    TablesDefault(c);
    assert |"string.key"| != |"strings.nested.key"|;
    assert |"float.nested.key"| != |"strings.nested.key"|;
    assert |"skipped.more.new.key"| != |"strings.nested.key"|;
    TableValuesFor("string.key", "float.nested.key", "strings.nested.key", "skipped.more.new.key");
  }

  /** Under the delimiter `-`, the flag `strings-nested-key` collects the array's elements in order. */
  lemma TableArrayCollectedDash(c: Config)
    requires c == New([WithTableDelimiter("-")])
    ensures ValuesFor(Flatten(c, TableDoc), "strings-nested-key") == ["one", "two", "three"]
  {
    TablesDash(c);
    assert |"string-key"| != |"strings-nested-key"|;
    assert |"float-nested-key"| != |"strings-nested-key"|;
    assert |"skipped-more-new-key"| != |"strings-nested-key"|;
    TableValuesFor("string-key", "float-nested-key", "strings-nested-key", "skipped-more-new-key");
  }

  /** Skipping `skipped, more` leaves the array's flag `strings.nested.key` and what it collects unchanged. */
  lemma TableArrayCollectedSkipped(c: Config)
    requires c == New([WithTableSkip(["skipped", "more"])])
    ensures ValuesFor(Flatten(c, TableDoc), "strings.nested.key") == ["one", "two", "three"]
  {
    TablesSkippedDefault(c);
    assert |"string.key"| != |"strings.nested.key"|;
    assert |"float.nested.key"| != |"strings.nested.key"|;
    assert |"new.key"| != |"strings.nested.key"|;
    TableValuesFor("string.key", "float.nested.key", "strings.nested.key", "new.key");
  }

  /** With both options, the flag `strings-nested-key` collects the array's elements in order. */
  lemma TableArrayCollectedSkippedDash(c: Config)
    requires c == New([WithTableDelimiter("-"), WithTableSkip(["skipped", "more"])])
    ensures ValuesFor(Flatten(c, TableDoc), "strings-nested-key") == ["one", "two", "three"]
  {
    TablesSkippedDash(c);
    assert |"string-key"| != |"strings-nested-key"|;
    assert |"float-nested-key"| != |"strings-nested-key"|;
    assert |"new-key"| != |"strings-nested-key"|;
    TableValuesFor("string-key", "float-nested-key", "strings-nested-key", "new-key");
  }
}
