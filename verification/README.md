# fftoml flattener, modelled in Dafny

fftoml is a configuration-file parser for the `ff` flag library. It turns a
TOML document into flag assignments. The document is a tree of tables,
scalars and arrays. The parser walks it and hands the flag set one
`(name, value)` pair per scalar, and one pair per element of an array, all
under the array's name. A flag name is the leaf's path of table keys joined
by a delimiter, `.` unless `WithTableDelimiter` says otherwise. A table path
given to `WithTableSkip` is removed from the front of the names of the
leaves below it. Those leaves are still emitted.

The model has eight modules, plus `Scenarios`:

- `Wrappers`: `Option`, `Outcome` and `Result`.
- `Document`: the parsed tree: `Scalar`, `Node`, `Doc`, and `NodeAt`, the declarative "the document holds `m` at `path`".
- `PathBuilder`: `Join` builds names from segments; `Split` is its inverse, used to state the round trip.
- `SkipMatcher`: `StripSkip` removes the first configured skip path lying above a leaf.
- `ValueEncoder`: the text each scalar is handed to the flag set as, and what a flag of the matching kind reads back from it.
- `Configuration`: `New(options)`, with options applied in order.
- `Flattener`: `Flatten` gives the pairs of a document; `Parse` hands them to a flag-set callback.
  - `Leaves` / `EmitAll` is an independent two-phase reference: enumerate the leaves, then emit each.
- `FlagCollection`: `ValuesFor`, the values a repeatable flag such as a string slice collects from the pairs, in order.

`Scenarios` holds the documents `basic.toml` and `table.toml` as trees. It
proves the exact pair sequences each tested configuration yields.

The contracts state what pkg/fftoml/fftoml_test.go requires of the parser,
for all inputs.

The tests fix what a skip path does. They register the flag `new.key` (or
`new-key`) for the leaf at `skipped.more.new.key`, and expect its value
`skipped` (`pkg/fftoml/fftoml_test.go:150-164`). So leaves below a skip path
are kept, and the skip path's segments are removed from the front of their
names.

## Model

| member | source | states |
|---|---|---|
| `Flattener.Parse` | pkg/fftoml/fftoml_test.go:39-51 | A document-parser failure becomes a parse error carrying the parser's message, and the pairs handed over are none. An empty document succeeds and hands over nothing. Otherwise the pass succeeds exactly when the flag set accepts every emitted pair, and then all pairs were handed over in order. On failure, the error is the first rejection, unchanged, and the pairs handed over are those up to and including the rejected one. |
| `Flattener.Visit` | pkg/fftoml/fftoml_test.go:109-114 | The pass succeeds iff every pair is accepted, and then the pairs handed over are all of them, in order. A failure is the rejection of the pair at some index `i`, every earlier pair was accepted, and the pairs handed over are exactly the first `i + 1`. |
| `Flattener.FlattenEmitsLeaves` | pkg/fftoml/fftoml_test.go:66-71 | The depth-first traversal equals the two-phase reference: enumerate the non-table leaves in document order, then emit each leaf's pairs. |
| `Flattener.LeavesExact` | pkg/fftoml/fftoml_test.go:82-88 | A leaf is enumerated exactly when it is a scalar or array reached from the root by a non-empty path of table keys. |
| `Flattener.FlattenExactly` | pkg/fftoml/fftoml_test.go:82-88 | A pair is emitted iff two things hold. First, the document holds a scalar or array at some non-empty path whose value, or one of whose elements, encodes to the pair's value. Second, the pair's name is that path's flag name. Both directions are proved. |
| `Flattener.ArrayInOrder` | pkg/fftoml/fftoml_test.go:36 | An array is emitted as one contiguous run, one pair per element in array order, all under the array path's flag name. |
| `Flattener.DelimiterOnlyChangesNames` | pkg/fftoml/fftoml_test.go:89-96 | Two configurations with the same skip paths give the same number of pairs and the same values in the same order. The two pairs at each position are given by one and the same leaf of the document. Each name is that leaf path's flag name under its own configuration: the same segments, each joined by its own delimiter. |
| `Flattener.EqualNamesNotSameUpToDelimiter` | pkg/fftoml/fftoml_test.go:82-96 | The pairing is not met by equal names alone: for the leaf at `a, b`, the pair `a.b` under `.` and `a.b` under `-` do not pair up, since under `-` that leaf is `a-b`. |
| `Flattener.SplitRecoversPath` | pkg/fftoml/fftoml_test.go:82-96 | Take a one-character delimiter that no table key contains. Splitting an emitted name gives back the segments of a path holding the value, less any skipped prefix. With no skip paths, that is the whole path. |
| `PathBuilder.SplitJoin` | pkg/fftoml/fftoml_test.go:84-87 | Splitting a joined name on a one-character delimiter that no segment contains returns the segments. |
| `PathBuilder.JoinInjective` | pkg/fftoml/fftoml_test.go:84-87 | Under the same condition, different segment sequences never share a flag name. |
| `SkipMatcher.StripSkip` | pkg/fftoml/fftoml_test.go:150-156 | A path under no skip path keeps its name. Otherwise the name drops the first configured skip path lying above the leaf, and no earlier skip path lies above it. The result is a suffix of the path, and it is non-empty for a leaf. |
| `SkipMatcher.StripSingleSkip` | pkg/fftoml/fftoml_test.go:151-155 | With a single skip path `s`, the leaf at `s + rest` is named by `rest`. |
| `Configuration.New` | pkg/fftoml/fftoml_test.go:159 | The skip paths are those of the skip options, in the order given. |
| `Configuration.NewDelimiter` | pkg/fftoml/fftoml_test.go:89-91 | The delimiter is `.` when no option sets one. Otherwise it is the one the last delimiter option gives. |
| `Configuration.NewSkips` | pkg/fftoml/fftoml_test.go:151 | A path is a skip path exactly when some skip option names it. |
| `ValueEncoder.EncodeReadBack` | pkg/fftoml/fftoml_test.go:31-35 | Each scalar's text, read by the flag of the scalar's own kind, gives the scalar back. |
| `ValueEncoder.IntRoundTrip` | pkg/fftoml/fftoml_test.go:32 | Every 64-bit integer reads back from its text. The text is the canonical decimal spelling. |
| `ValueEncoder.CanonicalIntRoundTrip` | pkg/fftoml/fftoml_test.go:32 | Conversely, canonical decimal text that the integer reader accepts is the text of the value read. |
| `FlagCollection.ValuesFor` | pkg/fftoml/fftoml_test.go:106 | A value is collected iff a pair under the flag's name carries it, and never more values than pairs. |
| `FlagCollection.ValuesForAppend` | pkg/fftoml/fftoml_test.go:106 | Setting two runs of pairs one after the other collects the first run's values, then the second's. |
| `FlagCollection.ArrayCollected` | pkg/fftoml/fftoml_test.go:69 | For every document and configuration: when one leaf is an array and no other leaf has its flag name, the flag collects exactly the array's elements, encoded, each once and in array order. |
| `Scenarios.BasicDefaults` | pkg/fftoml/fftoml_test.go:27-38 | `basic.toml` with no options yields exactly `s`, `i`=10, `f`, `b`=true and `d`, then `x` three times with "1", "a" and the thumbs-up, in that order. |
| `Scenarios.BasicReadBack` | pkg/fftoml/fftoml_test.go:32-34 | The integer and boolean of `basic.toml` read back as 10 and true. |
| `Scenarios.EmptyDocument` | pkg/fftoml/fftoml_test.go:22-26 | An empty document yields no pairs under any configuration. |
| `Scenarios.TablesDefault` | pkg/fftoml/fftoml_test.go:82-88 | `table.toml` with no options yields `string.key`, `float.nested.key`, three `strings.nested.key` pairs and `skipped.more.new.key`, with their values. |
| `Scenarios.TablesDash` | pkg/fftoml/fftoml_test.go:89-96 | The delimiter option `-` gives the same pairs with `-`-joined names. |
| `Scenarios.TableArrayCollected` | pkg/fftoml/fftoml_test.go:66-71 | With no options, the string-slice flag `strings.nested.key` collects "one", "two", "three", in order. |
| `Scenarios.TableArrayCollectedDash` | pkg/fftoml/fftoml_test.go:89-96 | With the delimiter `-`, the flag `strings-nested-key` collects "one", "two", "three", in order. |
| `Scenarios.TableArrayCollectedSkipped` | pkg/fftoml/fftoml_test.go:149-156 | Skipping `skipped, more`, the flag `strings.nested.key` collects "one", "two", "three", in order. |
| `Scenarios.TableArrayCollectedSkippedDash` | pkg/fftoml/fftoml_test.go:157-164 | With both options, the flag `strings-nested-key` collects "one", "two", "three", in order. |
| `Scenarios.TablesSkippedDefault` | pkg/fftoml/fftoml_test.go:149-156 | Skipping `skipped, more` names the leaf below it `new.key` and keeps its value. The other names are unchanged. |
| `Scenarios.TablesSkippedDash` | pkg/fftoml/fftoml_test.go:157-164 | Delimiter and skip compose: `new-key`, and `-`-joined names elsewhere. |

## Left out

- Reading TOML bytes is left out. That includes the malformed-file message "keys cannot contain { character", which belongs to the external TOML library. `Parse` takes the library's outcome as its `parsed` argument.
- Float and duration texts (`3.14e+10`, `1.23`, `5s`) are not modelled. They come from formatting code outside this model. A `Float` scalar carries its text, and the duration is a string in the document. The float flag's read-back is taken as the identity on that text.
- `ValueEncoder.ParseInt` reads plain decimal only. The flag package's base prefixes (`0x`, `0o`, `0b`, leading `0`) and `_` separators are not modelled. The encoder never writes them.
- The flag set, `ff.Parse`, `fftest` and file I/O are outside the model. The flag set is the `setFlag` callback of `Parse`. What a rejected flag does beyond failing the pass is not modelled.
- `t.Parallel()` and other concurrency are not modelled.
- `TestParser` uses the package-level `fftoml.Parser` (`pkg/fftoml/fftoml_test.go:49`). Its definition is not part of this model. The model takes it to be `New().Parse`, so `BasicDefaults` uses `New([])`.
- Tables inside arrays, and arrays of arrays, cannot be expressed: `Node` has no such shape, and the tests never use one.
- The order of a table's entries is the order of its sequence. The TOML library's own key order is not modelled.
- Keys that contain the delimiter are allowed in the model. Only the round-trip lemmas `SplitRecoversPath`, `SplitJoin` and `JoinInjective` require keys that avoid it.
- Several skip paths may lie above the same leaf. The model strips the first configured one. The tests configure a single skip path, so which one the implementation strips is a modelling choice.
- `WithTableSkip` is taken to add a path to the list, and for `WithTableDelimiter` the last option wins. The tests pass at most one of each.
