/**
 * Flag Collection: what a repeatable flag, such as a string-slice flag,
 * ends up holding once the flattener's pairs have been set, and how that
 * follows from where the document stores an array.
 */
module FlagCollection {
  import opened Document
  import opened ValueEncoder
  import opened Configuration
  import opened Flattener

  /** The values a repeated flag named `name` collects, in the order they are set. */
  function ValuesFor(ps: seq<Pair>, name: string): (r: seq<string>)
    ensures |r| <= |ps|
    ensures forall v :: v in r <==> Pair(name, v) in ps
  {
    if |ps| == 0 then []
    else (if ps[0].key == name then [ps[0].value] else []) + ValuesFor(ps[1..], name)
  }

  /** The texts of the elements of an array, in array order. */
  function EncodeAll(xs: seq<Scalar>): (r: seq<string>)
    ensures |r| == |xs|
    ensures forall i :: 0 <= i < |xs| ==> r[i] == Encode(xs[i])
  {
    seq(|xs|, i requires 0 <= i < |xs| => Encode(xs[i]))
  }

  /** Setting two runs of pairs one after the other collects the values of each, in turn. */
  lemma {:induction false} ValuesForAppend(a: seq<Pair>, b: seq<Pair>, name: string)
    ensures ValuesFor(a + b, name) == ValuesFor(a, name) + ValuesFor(b, name)
    decreases |a|
  {
    if |a| == 0 {
      assert a + b == b;
    } else {
      assert (a + b)[1..] == a[1..] + b;
      ValuesForAppend(a[1..], b, name);
    }
  }

  /** A leaf named otherwise adds nothing to the flag; an array named `name` adds its elements in order. */
  lemma ValuesForLeaf(c: Config, l: LeafAt, name: string)
    ensures FlagName(c, l.path) != name ==> ValuesFor(EmitLeaf(c, l.path, l.node), name) == []
    ensures FlagName(c, l.path) == name && l.node.Array? ==>
      ValuesFor(EmitLeaf(c, l.path, l.node), name) == EncodeAll(l.node.items)
  {
    var ps := EmitLeaf(c, l.path, l.node);
    if FlagName(c, l.path) != name {
      NoneNamed(ps, name);
    } else if l.node.Array? {
      AllNamed(ps, name);
    }
  }

  lemma {:induction false} NoneNamed(ps: seq<Pair>, name: string)
    requires forall i :: 0 <= i < |ps| ==> ps[i].key != name
    ensures ValuesFor(ps, name) == []
    decreases |ps|
  {
    if |ps| > 0 {
      NoneNamed(ps[1..], name);
    }
  }

  lemma {:induction false} AllNamed(ps: seq<Pair>, name: string)
    requires forall i :: 0 <= i < |ps| ==> ps[i].key == name
    ensures ValuesFor(ps, name) == seq(|ps|, i requires 0 <= i < |ps| => ps[i].value)
    decreases |ps|
  {
    if |ps| > 0 {
      AllNamed(ps[1..], name);
    }
  }

  /** Leaves none of which is named `name` add nothing to the flag. */
  lemma {:induction false} ValuesForNoLeaf(c: Config, ls: seq<LeafAt>, name: string)
    requires forall k :: 0 <= k < |ls| ==> FlagName(c, ls[k].path) != name
    ensures ValuesFor(EmitAll(c, ls), name) == []
    decreases |ls|
  {
    if |ls| > 0 {
      ValuesForNoLeaf(c, ls[1..], name);
      ValuesForLeaf(c, ls[0], name);
      ValuesForAppend(EmitLeaf(c, ls[0].path, ls[0].node), EmitAll(c, ls[1..]), name);
    }
  }

  /** The values collected from the leaves `ls` are the first leaf's, then the rest's. */
  lemma ValuesForLeaves(c: Config, ls: seq<LeafAt>, name: string)
    requires |ls| > 0
    ensures ValuesFor(EmitAll(c, ls), name) ==
      ValuesFor(EmitLeaf(c, ls[0].path, ls[0].node), name) + ValuesFor(EmitAll(c, ls[1..]), name)
  {
    assert EmitAll(c, ls) == EmitLeaf(c, ls[0].path, ls[0].node) + EmitAll(c, ls[1..]);
    ValuesForAppend(EmitLeaf(c, ls[0].path, ls[0].node), EmitAll(c, ls[1..]), name);
  }

  /** The `j`th of the leaves `ls` is an array named `name`, and no other leaf is named `name`. */
  predicate OnlyArrayNamed(c: Config, ls: seq<LeafAt>, j: nat, name: string)
  {
    && j < |ls|
    && ls[j].node.Array?
    && FlagName(c, ls[j].path) == name
    && forall k :: 0 <= k < |ls| && k != j ==> FlagName(c, ls[k].path) != name
  }

  /** With the only leaf named `name` first, no leaf of `ls[1..]` is named `name`. */
  lemma RestNotNamed(c: Config, ls: seq<LeafAt>, name: string)
    requires OnlyArrayNamed(c, ls, 0, name)
    ensures forall k :: 0 <= k < |ls[1..]| ==> FlagName(c, ls[1..][k].path) != name
  {
    forall k | 0 <= k < |ls[1..]|
      ensures FlagName(c, ls[1..][k].path) != name
    {
      assert ls[1..][k] == ls[k + 1];
    }
  }

  /** The only leaf named `name`, at `j > 0`, is at `j - 1` among `ls[1..]`, and the first leaf is named otherwise. */
  lemma OnlyNamedInRest(c: Config, ls: seq<LeafAt>, j: nat, name: string)
    requires 0 < j && OnlyArrayNamed(c, ls, j, name)
    ensures FlagName(c, ls[0].path) != name
    ensures ls[1..][j - 1] == ls[j]
    ensures OnlyArrayNamed(c, ls[1..], j - 1, name)
  {
    forall k | 0 <= k < |ls[1..]| && k != j - 1
      ensures FlagName(c, ls[1..][k].path) != name
    {
      assert ls[1..][k] == ls[k + 1];
    }
  }

  /** The base case of `ValuesForOneArray`: the array is the first leaf. */
  lemma ValuesForFirstArray(c: Config, ls: seq<LeafAt>, name: string)
    requires OnlyArrayNamed(c, ls, 0, name)
    ensures ValuesFor(EmitAll(c, ls), name) == EncodeAll(ls[0].node.items)
  {
    var head := ValuesFor(EmitLeaf(c, ls[0].path, ls[0].node), name);
    var tail := ValuesFor(EmitAll(c, ls[1..]), name);
    ValuesForLeaves(c, ls, name);
    ValuesForLeaf(c, ls[0], name);
    RestNotNamed(c, ls, name);
    ValuesForNoLeaf(c, ls[1..], name);
    assert head + tail == head;
  }

  /** The step of `ValuesForOneArray`: a first leaf named otherwise adds nothing. */
  lemma ValuesForLaterArray(c: Config, ls: seq<LeafAt>, name: string, want: seq<string>)
    requires 0 < |ls| && FlagName(c, ls[0].path) != name
    requires ValuesFor(EmitAll(c, ls[1..]), name) == want
    ensures ValuesFor(EmitAll(c, ls), name) == want
  {
    var head := ValuesFor(EmitLeaf(c, ls[0].path, ls[0].node), name);
    ValuesForLeaves(c, ls, name);
    ValuesForLeaf(c, ls[0], name);
    assert head + want == want;
  }

  /** When the one leaf named `name` is an array, the flag collects exactly that array's elements, in order. */
  lemma {:induction false} ValuesForOneArray(c: Config, ls: seq<LeafAt>, j: nat, name: string)
    requires OnlyArrayNamed(c, ls, j, name)
    ensures ValuesFor(EmitAll(c, ls), name) == EncodeAll(ls[j].node.items)
    decreases |ls|
  {
    if j == 0 {
      ValuesForFirstArray(c, ls, name);
    } else {
      OnlyNamedInRest(c, ls, j, name);
      ValuesForOneArray(c, ls[1..], j - 1, name);
      ValuesForLaterArray(c, ls, name, EncodeAll(ls[j].node.items));
    }
  }

  /**
   * A string-slice flag collects an array of the document: when the `j`th
   * leaf of the document is an array and no other leaf has its flag name,
   * that flag receives the array's elements, each once, in array order,
   * and nothing else.
   */
  lemma ArrayCollected(c: Config, doc: Doc, j: nat, name: string)
    requires OnlyArrayNamed(c, Leaves(doc), j, name)
    ensures ValuesFor(Flatten(c, doc), name) == EncodeAll(Leaves(doc)[j].node.items)
  {
    FlattenEmitsLeaves(c, doc);
    ValuesForOneArray(c, Leaves(doc), j, name);
  }
}
