/**
 * The typed document tree the external TOML parser hands to the flattener:
 * tables of named nodes, scalar leaves and arrays of scalars.
 */
module Document {

  const MinInt64: int := -0x8000_0000_0000_0000
  const MaxInt64: int := 0x7FFF_FFFF_FFFF_FFFF

  /** TOML integers are signed 64-bit. */
  type Int64 = x: int | MinInt64 <= x <= MaxInt64

  /**
   * A leaf value. `Float` carries the text the float formatter produced for
   * the parsed number; formatting floating point is not part of this model.
   */
  datatype Scalar =
    | Str(s: string)
    | Int(i: Int64)
    | Bool(b: bool)
    | Float(text: string)

  /** A node of the document: a scalar, an array of scalars, or a nested table. */
  datatype Node =
    | Leaf(value: Scalar)
    | Array(items: seq<Scalar>)
    | Table(entries: seq<(string, Node)>)

  /** A whole document is the root table's entries, in the parser's order. */
  type Doc = seq<(string, Node)>

  /** A path from the root to a node: the table keys traversed, in order. */
  type Path = seq<string>

  /**
   * `m` is the node reached from `n` by following the table keys of `path`.
   * This is the declarative reading of "the document holds m at path p";
   * with duplicate keys in a table, every entry under the key is reached.
   */
  ghost predicate NodeAt(n: Node, path: Path, m: Node)
    decreases n
  {
    if |path| == 0 then n == m
    else
      && n.Table?
      && exists i :: 0 <= i < |n.entries| && n.entries[i].0 == path[0] && NodeAt(n.entries[i].1, path[1..], m)
  }

  /** The scalars a node hands to the flag layer: one for a leaf, the elements of an array, none for a table. */
  function ScalarsOf(n: Node): seq<Scalar>
  {
    match n
    case Leaf(v) => [v]
    case Array(xs) => xs
    case Table(_) => []
  }

  /** No table key anywhere in `entries` contains the character `c`. */
  predicate KeysAvoid(entries: seq<(string, Node)>, c: char)
    decreases Table(entries), 0
  {
    forall i :: 0 <= i < |entries| ==> c !in entries[i].0 && NodeKeysAvoid(entries[i].1, c)
  }

  /** No table key anywhere below `node` contains the character `c`. */
  predicate NodeKeysAvoid(node: Node, c: char)
    decreases node, 1
  {
    match node
    case Table(es) => KeysAvoid(es, c)
    case _ => true
  }
}
