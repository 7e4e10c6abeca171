# mjl-/log in Dafny

This project models the core of `github.com/mjl-/log`, a Go logging package, and proves properties of that model. The package prints errors together with key/value "tags":

- **Package `fur`.** A `fur.Error` holds an underlying error `Err` and a tag map (`Tags`). Go maps are references, so every copy of the error shares that map, and `Tag(k, v)` writes into it in place.
- **`Logger.write`.** It renders one `Printf`-style call. The text line is laid out as `[timestamp ][prefix][file:line: ]message[ (k=v k=v ...)]`, followed by a newline when one does not already end it. The tags come from walking the unwrap chain, starting at the cause of the formatted message, and taking every link that is a `fur.Tagger`.
- **`Logger.writeJSON`.** With `FlagJSON` set, the call becomes a JSON document instead. It holds `message`, the optional `timestamp` and `file`, `level` (`info` or `error`), and every tag at top level, with inner links overwriting outer ones.
- **Writes.** Each call writes to the logger's `io.Writer` once, or not at all when JSON marshalling fails.

The project has four files:

- `wrappers.dfy`: `Option`.
- `fur.dfy` (module `Fur`):
  - error values: `Error`, with cases `Simple`, `Wrapping` and `Tagged` (a fur.Error); `FurError`; messages; `xerrors.Unwrap`; the unwrap chain;
  - the heap object `TagMap` for a Go map;
  - the methods `Tag`, `New` and `Errorf`.
- `log_render.dfy` (module `LogRender`): the pure specification of one call, with its lemmas. It covers:
  - flags, header, location and base name;
  - the tag segment state machine;
  - `TagPairs`: the tags collected along the chain;
  - `TextLine`, `JsonDoc` and `Emit`: the outcome of a call, meaning what it returns and what it writes.
- `log.dfy` (module `Log`):
  - the `Sink`, which stands for an `io.Writer` and records its writes;
  - the `Logger` class with its setters;
  - `Write` and `WriteJSON`, whose loops mirror the Go code, each proved against `Emit` / `JsonOutcome`.

A Go map is a `TagMap` object whose `entries` sequence lists its pairs (with distinct keys) in the order one `range` over it visits them. The chain is a finite datatype, so the walk terminates, and each unwrap step goes to a strictly smaller error.

The code and its description disagree on one point, and the model follows the code. `fur.Error.Unwrap` does not return `Err`. It returns `xerrors.Unwrap(Err)`, the cause of `Err` (fur/fur.go:29-31). So for `fur.Errorf("x: %w", inner)` it returns `inner`, but for `fur.New(err)` it skips `err`. A fur.Error sitting directly inside another one (`fur.New(taggedErr)`) is therefore never visited by the tag walk. `Fur.NestedFurSkipped` states this.

## Model

| member | source | states |
|---|---|---|
| Fur.Message | fur/fur.go:23-26 | `Error()` of any error. For a fur.Error it is the message of `Err`, so a stack of fur.Errors shows the message of the first other error beneath them, and tags never appear in it |
| Fur.FurMessage | fur/fur.go:24-26 | `fur.Error.Error()` is the message of the first non-fur error under `Err`, unchanged |
| Fur.FurUnwrap | fur/fur.go:29-31 | `fur.Error.Unwrap()` is never `Err` itself, and what it returns is strictly smaller than `Err` |
| Fur.Unwrap | log.go:170-173 | `xerrors.Unwrap`: none for an error without a cause, the cause for a wrapping error, and a strictly smaller error in every case |
| Fur.Tag | fur/fur.go:38-42 | The shared map now maps `key` to `value`, every other key keeps its value, and the map stays a map (distinct keys). The method returns the same struct with the same map reference, so any copy sharing the map sees the tag. Tagging a key again replaces its value in place, so the map keeps its length and every key its position. A new key is appended after the existing ones in the model's chosen order |
| Fur.New | fur/fur.go:50-53 | `Err == err`, with a new, empty tag map. Its `Unwrap()` is `xerrors.Unwrap(err)` |
| Fur.Errorf | fur/fur.go:44-48 | The formatted error with a new, empty tag map. Its message is the formatted text and its `Unwrap()` is the `%w` operand |
| Fur.Formatted | log.go:168 | The `xerrors.Errorf` result: its message is the rendered text, it unwraps to the `%w` operand, and it is not a Tagger |
| Fur.ChainIsWalk | log.go:173 | The chain is exactly the sequence of errors the `for ; err != nil; err = xerrors.Unwrap(err)` loop visits, and each link is strictly smaller than the one before, so the walk ends |
| Fur.NestedFurSkipped | fur/fur.go:29-31 | A fur.Error directly inside another fur.Error is never a link of the chain, so its tags are never collected |
| Fur.AssignLookup | log.go:230-232 | After `o[k] = v` for every pair in order, a key is present iff it was present before or some pair has it; its value is that of the last such pair, or the old value |
| Fur.AssignConcat | log.go:225-233 | Assigning two runs of pairs in turn is assigning their concatenation |
| Fur.InnerOverwritesOuter | log.go:225-233 | A key set by a later (inner) run of pairs has that run's value, whatever an earlier run or the built-in fields held |
| Fur.AssignUpdateAt | fur/fur.go:40 | Overwriting an existing key's value in place changes the map at that key only |
| LogRender.Base | log.go:161-163 | The file part of `path.Split`: a suffix of the path with no '/', preceded by a '/' whenever it is not the whole path |
| LogRender.Digits | log.go:164 | The `%d` digits of a natural number: all decimal digits, with no leading zero, denoting the number |
| LogRender.Decimal | log.go:164 | `%d` of an int: a non-empty run of digits without a leading zero, after a '-' for a negative number, denoting that number |
| LogRender.FileBits | log.go:158 | The test of the two file flags together holds exactly when `FlagFile` or `FlagPath` is set |
| LogRender.HeaderStamp | log.go:148-153 | The timestamp is present only with `FlagTimestamp`. It is the UTC rendering when `FlagUTC` is set and the local one otherwise, followed by " " and then the prefix. The JSON `timestamp` field makes the same choice, and is absent without `FlagTimestamp` |
| LogRender.LocationShape | log.go:158-165 | With `FlagPath`: the full path, ":", the line and ": ". With only `FlagFile`: the base name instead of the path. Without either flag, or when the caller did not resolve: nothing |
| LogRender.OpenedSnoc | log.go:178-181 | Each tag is written as the current prefix, `k`, "=" and `v`, and the prefix is " " afterwards |
| LogRender.OpenedJoined | log.go:172-182 | Once at least one tag is written, the loop has produced " (" and then the `k=v` texts separated by single spaces |
| LogRender.SegmentShape | log.go:172-185 | The tag segment is empty when there are no tags. Otherwise it is " (", the `k=v` texts separated by exactly one space, and one ")" |
| LogRender.OnePairSegment | log.go:172-185 | A single tag gives the segment " (k=v)" |
| LogRender.OwnTagsOnly | fur/fur.go:33-36 | A fur.Error link contributes exactly the map its `Tags()` (`Fur.FurTags`) returns. All other tags of the chain come from the links after it, so `Tags()` holds no other link's tags |
| LogRender.NonTaggerAddsNone | log.go:174-177 | A link that is not a `fur.Tagger` (the `err.(fur.Tagger)` assertion `Fur.AsTagger` gives none) adds no tags, and the walk continues at its cause |
| LogRender.LinkThenRest | log.go:173-182 | The chain's tags are the first link's own pairs followed by the tags of the chain from its cause |
| LogRender.TagPairsSnoc | log.go:173-182 | Walking one more link adds exactly that link's own pairs, or none when it is not a Tagger |
| LogRender.TagPairsConcat | log.go:173-182 | The tags of two consecutive parts of the chain are those of the first part, then those of the second |
| LogRender.TagPairsSplit | log.go:173-182 | The tags of the chain are those before a link, then that link's own, then those after it |
| LogRender.TagPairsThrough | log.go:173-182 | The tags of the links up to and including link i are those before it, then link i's own |
| LogRender.TagPairsAround | log.go:173-182 | Cutting the chain at any position, its tags are those of the part before the cut, then those of the part after |
| LogRender.OuterTagsFirst | log.go:170-182 | For links i < j, all tags of link i come before any tag of link j |
| LogRender.NoTagsAnywhere | log.go:172-185 | The chain yields no tags exactly when no link of it has any |
| LogRender.EnsureNewline | log.go:186-189 | The result ends with "\n" and starts with the whole input, and it is at most one character longer. It equals the input exactly when the input already ends with "\n" |
| LogRender.TextLineLayout | log.go:147-189 | The line is `[timestamp ]` (only with `FlagTimestamp`), then the prefix verbatim, then `[file:line: ]`, then the message, then the tag segment of the chain from the message's cause, and then "\n" exactly when that text does not already end with one |
| LogRender.TextWithoutTags | log.go:172-189 | Without tags in the chain the line has no tag segment |
| LogRender.BaseDocFields | log.go:195-224 | The built-in fields are exactly `message` and `level`, plus `timestamp` with `FlagTimestamp` and `file` when a file flag is set and the caller resolved. `file` keeps the "file:line: " form |
| LogRender.FieldsShape | log.go:195-224 | Setting `message`, then the optional `timestamp` and `file`, then `level` gives exactly those keys, each holding its own value |
| LogRender.JsonLevel | log.go:219-224 | When no tag is named "level": `level` is "info" exactly when the message has no cause, and "error" exactly when it has one |
| LogRender.JsonTags | log.go:225-233 | Every tag key is a field holding the value of its innermost occurrence, even over a built-in field. Every other field is the built-in one |
| LogRender.JsonInnerLinkWins | log.go:225-233 | When an outer and an inner link both tag `k` and no deeper link does, the document holds the inner link's value |
| LogRender.LinkWins | log.go:225-233 | Assigning the chain's tags leaves `k` with its value on the last link that has it |
| LogRender.JsonWithoutTags | log.go:195-233 | Without tags in the chain the document is exactly the built-in fields |
| LogRender.EmitWritesOnce | log.go:142-243 | A call writes at most once, and writes nothing only when JSON marshalling fails. In text mode it writes the string it returns, which ends with "\n". In JSON mode it writes the JSON text plus "\n" and returns the text, or returns the message when marshalling fails |
| LogRender.JsonIgnoresPrefix | log.go:142-145 | With `FlagJSON` the outcome does not depend on the prefix: `write` delegates to `writeJSON` whatever the other settings |
| LogRender.ConnectChain | log.go:170-173 | For `Printf("open resource: %w", fur.Errorf("connect: %w", timeout).Tag("address", …))` the walk visits the fur.Error and then the root error, taking one tag |
| LogRender.TaggedCauseLine | log.go:147-191 | That call writes "open resource: connect: timeout (address=10.0.0.1:5432)\n" |
| LogRender.TaggedCauseDocument | log.go:195-233 | In JSON mode that call's document is `{message, level: "error", address}` |
| LogRender.PlainMessage | log.go:147-224 | "plain message" without a cause gives the line "plain message\n" and the document `{message, level: "info"}` |
| LogRender.ClosedLine | log.go:186-189 | A line `text` followed by a one-pair segment " (k=v)" does not end in "\n", so exactly one "\n" is added |
| LogRender.NoFlagsHeader | log.go:147-166 | Without flags, only the prefix comes before the message |
| Log.Sink.Write | log.go:190 | One `Write` call adds exactly its bytes to what the writer has received |
| Log.Logger.New | log.go:100-107 | The logger holds `out`, `prefix` and `flags` as given |
| Log.Logger.SetFlags | log.go:109-112 | Replaces the flags and leaves `out` and `prefix` unchanged |
| Log.Logger.SetPrefix | log.go:114-117 | Replaces the prefix and leaves `out` and `flags` unchanged |
| Log.Logger.SetOutput | log.go:119-123 | Replaces the writer and leaves `prefix` and `flags` unchanged |
| Log.Logger.Printf | log.go:125-128 | The writer receives exactly the writes of one call's outcome |
| Log.Logger.Fatalf | log.go:130-134 | The writer receives exactly one call's writes, and the process then exits with status 1 |
| Log.Logger.Panicf | log.go:136-140 | The writer receives one call's writes, and the panic value is what that call returns |
| Log.Logger.Write | log.go:142-192 | Returns and writes exactly what `Emit` gives for the logger's state before the call: the JSON outcome with `FlagJSON`, otherwise the text line written once and returned |
| Log.Logger.WriteJSON | log.go:194-243 | On marshal failure returns the message and writes nothing. Otherwise writes the JSON text plus "\n" once and returns the text, for the document `JsonDoc` |
| Log.RenderText | log.go:147-189 | The string built by the builder steps, the chain loop and the newline rule is `TextLine` |
| Log.BuildDocument | log.go:195-233 | The map `o` filled by `writeJSON` before marshalling is `JsonDoc` |
| Log.TextHeader | log.go:147-166 | The builder's contents before the message are the header: `[timestamp ][prefix][file:line: ]` |
| Log.BuiltinFields | log.go:195-224 | The map after the `message`, `timestamp`, `file` and `level` assignments is the built-in document |
| Log.AppendTags | log.go:170-185 | The chain loop appends exactly the tag segment of the chain's tags, closed by ")" only once a tag was written |
| Log.AppendPairs | log.go:178-181 | One link's inner loop extends the segment by its pairs, each after the current prefix |
| Log.AssignTags | log.go:225-233 | The JSON chain loop leaves `o` as the built-in document with every tag of the chain assigned in walk order |
| Log.AssignPairs | log.go:230-232 | One link's `o[k] = v` loop assigns its pairs in order |

## Left out

- `time.Now` and RFC 3339 nano formatting: the call's time is a `Clock` parameter holding the local and the UTC rendering, and `FlagUTC` chooses between them.
- `runtime.Caller` and the call depth: the caller location is an `Option<Caller>` parameter, where `None` means it did not resolve.
- `xerrors.Errorf` and `fmt`: placeholder substitution and `%v` rendering are not modelled. A call gives its rendered message and its `%w` operand (`Fur.Formatted`), and a tag value's `%v` is `LogRender.Show`, given by kind for strings, ints, bools and nil and as text for any other value.
- `json.Marshal`: encoding is the parameter `marshal: Doc -> Option<string>`, where `None` is failure. The model proves facts about the document, not about the JSON text.
- Map order: Go visits a map's keys in random order with `range`. The model fixes one admissible order, the `entries` sequence: `Tag` appends a new key at the end and overwrites an existing key in place. Go promises no such order, and the rendering results (`TextLine`, `JsonDoc`) follow whatever order `entries` has.
- `Fatalf` and `Panicf`: `os.Exit(1)` and `panic(s)` are return values (`status`, `payload`), not exits. The diagnostic printed to `os.Stderr` on a marshal failure is not modelled.
- The package-level `std` logger and its functions (log.go:41-78): they only delegate to a `Logger`.
- Cyclic chains: a chain is a finite datatype, so the walk always ends. The Go loop does not end on a cycle.
- Concurrency: the package has none to model.
- Other Tagger types: only `fur.Error` values are modelled as Taggers. In Go, `*fur.Error` also implements `fur.Tagger`, and so can any other type with a `Tags()` method; the model has no such case. Other error types with an `Unwrap` method are the `Wrapping` case.
- Nil values: a zero `fur.Error` with a nil map, `fur.New(nil)`, and `Tag` on a nil map (a Go panic) are not modelled. Every `fur.Error` has a map and an underlying error.
- The error result of `io.Writer.Write` is ignored by the code and is not modelled.
- Flags and line numbers: flags are the 64 bits of a Go `int` (`bv64`), line numbers are unbounded integers, and Go integer overflow plays no part.
