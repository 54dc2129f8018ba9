# yokecd parameter decoding and run pipeline, in Dafny

This project models the decision logic of `yokecd`, the Argo CD Config
Management Plugin adapter of yoke. The adapter reads the application's
parameters, locates or builds a WebAssembly "flight", evaluates it, and writes
the resources it produces to standard output as JSON lines.

Two pieces are modelled:

- **Parameter decoding** (`cmd/yokecd/config.go`). `YokecdConfig.UnmarshalText`
  takes the parameter document as an ordered list of `{name, string, array}`
  records, or the document decoder's error. It returns either a
  `Parameters{build, wasm, input, args}` value or an error.
  - Each name is looked up with a first-match scan (`Internal.Find`). A missing
    record reads as the zero record.
  - The `build` string goes through `GoStd.ParseBool`, a model of
    `strconv.ParseBool`. An empty string is not parsed.
  - `wasm` loses every leading `/` (`GoStd.TrimLeft`).
  - The decoder then requires exactly one of "build enabled" and "non-empty
    module path".
  - Every error is wrapped under `invalid config`.
- **The run pipeline** (`cmd/yokecd/main.go`).
  - `YokecdMain.ExecuteFlight` is the inner closure of `run`: optional build,
    evaluation, then the deferred removal of the built artifact.
  - `YokecdMain.Run` wraps that closure's errors and calls
    `YokecdMain.EncodeResources`.
  - `EncodeResources` writes one record per decoded resource, in order, and
    stops at the first failed write.
  - Each method returns a trace of effects (`BuildCalled`, `Eval(request)`,
    `Remove(path)`, `Emit(resource)`) and its error. The properties are
    statements about that trace.

Go errors are modelled as chains (`Errors.Error`). `Wrap(context, cause)`
stands for `fmt.Errorf("context: %w", cause)`. The contracts state which
context wraps which cause, not only how the message starts. The strconv syntax
error is itself a wrapping of "invalid syntax", as Go's `*strconv.NumError`
unwraps to `strconv.ErrSyntax`. `Errors.Message` gives the printed text.

The collaborators are parameters:

- `Build()` is a `BuildOutcome` value: the returned path and an optional error.
- `yoke.EvalFlight` is a function from the evaluator request to bytes or an
  error.
- The YAML decoding of its output is a function from bytes to a resource list
  or an error.
- The JSON sink is a function from the write number (0-based) to an optional
  error.

A failed build leaves its temporary file behind. `Build()` returns the
temporary file's path together with the compiler's error
(`cmd/yokecd/main.go:98`). The closure in `run` then returns before
`defer os.Remove` is reached (`cmd/yokecd/main.go:36-39`). The model follows
the code: on a build failure the trace is exactly `[BuildCalled]`, with no
removal.

## Model

| member | source | states |
|---|---|---|
| GoStd.ParseBool | cmd/yokecd/config.go:46 | success exactly on the twelve strconv spellings; true exactly on `1 t T TRUE true True`, false exactly on `0 f F FALSE false False`; any other string yields the strconv syntax error naming it, which wraps "invalid syntax" |
| GoStd.SyntaxErrorMessage | cmd/yokecd/config.go:46-48 | the syntax error prints as `strconv.ParseBool: parsing "<value>": invalid syntax` |
| GoStd.ParseFormatBool | cmd/yokecd/config.go:45-46 | ParseBool inverts FormatBool for both values and rejects the empty string |
| GoStd.TrimLeft | cmd/yokecd/config.go:53 | the result is a suffix of the input, every character cut off is the cut character, and the result does not start with it |
| GoStd.TrimLeftEmpty | cmd/yokecd/config.go:53 | trimming leaves nothing exactly when the input consists only of the cut character |
| GoStd.TrimLeftFixed | cmd/yokecd/config.go:53 | trimming is idempotent and leaves a string not starting with the cut character unchanged |
| GoStd.TrimLeftPrefix | cmd/yokecd/config.go:53 | any number of leading cut characters in front of a string that does not start with one are removed, and nothing else |
| Internal.FirstIndex | cmd/yokecd/config.go:43 | the index returned is the first one satisfying the predicate, or the length when none does |
| Internal.Find | cmd/yokecd/config.go:43 | absent exactly when no element matches; a found element matches and sits at a position with no earlier match, so it is the first match |
| Internal.FindIgnores | cmd/yokecd/config.go:43 | inserting an element that does not match, or that comes after an earlier match, does not change the lookup |
| YokecdConfig.Resolve | cmd/yokecd/config.go:43-67 | a successful resolution has exactly one of build and a module path; the build flag is true exactly for a true ParseBool spelling; the path is the `wasm` string with every leading "/" removed; input and arguments are copied from the records |
| YokecdConfig.UnmarshalText | cmd/yokecd/config.go:25-70 | success yields a valid parameter set; every error is wrapped under "invalid config"; a document decode error is returned wrapped under it |
| YokecdConfig.InvalidConfigMessage | cmd/yokecd/config.go:26-30 | the printed text of every error the decoder returns starts with "invalid config: " |
| YokecdConfig.BuildAbsentOrEmpty | cmd/yokecd/config.go:43-57 | with no `build` record or an empty `build` string, the flag stays false: the outcome is the "must be provided" error without a module path and success with build false with one |
| YokecdConfig.BadBuildToken | cmd/yokecd/config.go:45-49 | a non-empty `build` string outside the ParseBool spellings fails with "invalid config: parsing parameter build: …", whatever `wasm` holds |
| YokecdConfig.Partition | cmd/yokecd/config.go:45-61 | decoding succeeds if and only if the build string parses (or is empty) and exactly one of build and a module path is given; neither and both fail with their own messages |
| YokecdConfig.Fields | cmd/yokecd/config.go:43-67 | on success the build flag is true exactly for a true spelling, the path is the first `wasm` string with leading slashes removed, input and arguments are the first records' values verbatim |
| YokecdConfig.LookupAt | cmd/yokecd/config.go:43 | the lookup of a name returns the record at the first position carrying that name |
| YokecdConfig.SlashesOnlyIsNoPath | cmd/yokecd/config.go:52-57 | a `wasm` value made only of slashes gives an empty module path, so success then requires build mode |
| YokecdConfig.IrrelevantRecord | cmd/yokecd/config.go:43-66 | a record with an unrecognised name, or a later duplicate of a name, has no effect on the outcome |
| YokecdConfig.EncodeRoundTrip | cmd/yokecd/config.go:25-70 | every valid parameter set is what the decoder returns for the document listing its four fields |
| YokecdMain.ExecuteFlight | cmd/yokecd/main.go:32-52 | prebuilt mode evaluates the configured path and removes nothing; a failed build stops before evaluation with "failed to build binary" and schedules no removal; a successful build evaluates the built path and removes it after evaluation whatever it returned; every evaluator request carries the application name and namespace, input and arguments of the configuration unmodified |
| YokecdMain.EncodeResources | cmd/yokecd/main.go:60-78 | a decode failure emits nothing and returns "failed to unmarshal executed flight data"; otherwise resources are emitted in order, one write each; when write k fails exactly the k earlier records are out and that error is returned unwrapped; otherwise all are emitted and no error is returned |
| YokecdMain.Run | cmd/yokecd/main.go:31-58 | a caller-supplied path is never removed; a built path is removed exactly once and before any emission; build and evaluation errors are wrapped under "failed to execute flight wasm" and nothing is emitted; once the build has not failed, everything after the closure's one or three effects is an emission, so the flight is evaluated exactly once and nothing follows a failed evaluation or decode; a decode failure of the output returns the unmarshal error with nothing emitted; after a successful evaluation and decode the records emitted are the resources in order up to the first failed write, the run succeeds exactly when all are emitted, and a write error is returned unwrapped |

## Left out

- `getConfig` and the `conf` library's environment binding are not modelled. The configuration is an input to `Run`.
- `Build()` internals are not modelled: `os.CreateTemp`, closing the file, `go build` with `GOOS=wasip1 GOARCH=wasm`. They are process and filesystem plumbing, so the whole call is one `BuildOutcome` value.
- `yoke.EvalFlight` is an oracle function. The WASM engine is external, and the metadata it returns is discarded by `run`.
- YAML and JSON decoding and encoding, and the `unstructured` resource type, are library code. Resources are opaque values. The decoded parameter record list and the decoded resource list (or their errors) are inputs.
- The `debug` messages on standard error, `main`, and `os.Exit` are not modelled: they are diagnostics and process exit.
- `os.Remove` errors are ignored by the source. A removal is recorded in the trace, not its result.
- YokecdConfig.UnmarshalText: starts from a zero-valued receiver, as `getConfig` provides. The partial field updates Go makes before returning an error are not modelled.
- YokecdConfig.UnmarshalText: Go's nil and empty `args` slices are both the empty sequence.
- GoStd.ParseBool: the syntax error text puts the value between plain double quotes. The escaping `strconv.Quote` applies is not modelled.
- YokecdMain.EncodeResources: the sink is modelled as a write outcome per write number, independent of the record written. A failed write adds nothing to the trace.
- Decoding the same document twice gives the same result because the decoder is a function. No separate lemma states this.
