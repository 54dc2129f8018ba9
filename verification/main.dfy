/** The yokecd run pipeline (cmd/yokecd/main.go): optionally build the flight,
    evaluate it, and encode the resources it produces. The build step, the
    flight evaluator, the YAML decoder of the evaluator's output and the JSON
    sink are oracles passed in as values or functions; each operation returns
    the trace of effects it performed and its error, if any. */
module YokecdMain {
  import opened Errors
  import opened YokecdConfig

  newtype byte = x: int | 0 <= x < 256

  /** The identity of the Argo CD application being rendered. */
  datatype Application = Application(name: string, namespace: string)

  datatype Config = Config(application: Application, flight: Parameters)

  /** One resource manifest; its content is opaque here. */
  datatype Resource = Resource(kind: string, name: string, body: string)

  /** The arguments handed to the flight evaluator. */
  datatype EvalRequest = EvalRequest(appName: string, path: string, input: string, args: seq<string>, namespace: string)

  /** What `Build()` returns: a path, and an error when the build failed. A
      failed compilation still returns the temporary file's path. */
  datatype BuildOutcome = BuildOutcome(path: string, failure: Option<Error>)

  /** The observable effects of a run, in the order they happen. `Emit` is a
      record written to the sink. */
  datatype Effect = BuildCalled | Eval(request: EvalRequest) | Remove(path: string) | Emit(resource: Resource)

  const ExecuteContext := "failed to execute flight wasm"
  const BuildFailedContext := "failed to build binary"
  const UnmarshalContext := "failed to unmarshal executed flight data"

  /** The evaluator request for a module path: application name and
      namespace, input and arguments come from the configuration untouched. */
  function RequestFor(cfg: Config, path: string): EvalRequest {
    EvalRequest(cfg.application.name, path, cfg.flight.input, cfg.flight.args, cfg.application.namespace)
  }

  /** The inner closure of `run`: build when asked (returning early on a build
      failure, before the removal is deferred), evaluate, then remove the
      built artifact on the way out whatever the evaluation returned. */
  method ExecuteFlight(cfg: Config, build: BuildOutcome, eval: EvalRequest -> Result<seq<byte>, Error>)
    returns (trace: seq<Effect>, data: Result<seq<byte>, Error>)
    ensures !cfg.flight.build ==>
      trace == [Eval(RequestFor(cfg, cfg.flight.wasm))] && data == eval(RequestFor(cfg, cfg.flight.wasm))
    ensures cfg.flight.build && build.failure.Some? ==>
      trace == [BuildCalled] && data == Err(Wrap(BuildFailedContext, build.failure.value))
    ensures cfg.flight.build && build.failure.None? ==>
      trace == [BuildCalled, Eval(RequestFor(cfg, build.path)), Remove(build.path)]
      && data == eval(RequestFor(cfg, build.path))
    ensures forall i :: 0 <= i < |trace| && trace[i].Eval? ==>
      var q := trace[i].request;
      && q.appName == cfg.application.name && q.namespace == cfg.application.namespace
      && q.input == cfg.flight.input && q.args == cfg.flight.args
      && q.path == (if cfg.flight.build then build.path else cfg.flight.wasm)
  {
    var path := cfg.flight.wasm;
    trace := [];
    if cfg.flight.build {
      trace := [BuildCalled];
      path := build.path;
      if build.failure.Some? {
        return trace, Err(Wrap(BuildFailedContext, build.failure.value));
      }
    }
    var request := RequestFor(cfg, path);
    trace := trace + [Eval(request)];
    data := eval(request);
    if cfg.flight.build {
      trace := trace + [Remove(path)];
    }
  }

  /** `EncodeResources`: decode the evaluator's output, then write one record
      per resource in order, stopping at the first failed write. A decode
      failure writes nothing; a write failure is returned unwrapped after
      exactly the records before it. */
  method EncodeResources(data: seq<byte>, decode: seq<byte> -> Result<seq<Resource>, Error>, sink: nat -> Option<Error>)
    returns (trace: seq<Effect>, err: Option<Error>)
    ensures decode(data).Err? ==> trace == [] && err == Some(Wrap(UnmarshalContext, decode(data).error))
    ensures decode(data).Ok? ==>
      var rs := decode(data).value;
      && |trace| <= |rs|
      && (forall j :: 0 <= j < |trace| ==> trace[j] == Emit(rs[j]))
      && (forall j :: 0 <= j < |trace| ==> sink(j).None?)
      && (err.None? ==> |trace| == |rs|)
      && (err.Some? ==> |trace| < |rs| && err == sink(|trace|))
  {
    var decoded := decode(data);
    if decoded.Err? {
      return [], Some(Wrap(UnmarshalContext, decoded.error));
    }
    var rs := decoded.value;
    trace := [];
    var i := 0;
    while i < |rs|
      invariant i <= |rs| && |trace| == i
      invariant forall j :: 0 <= j < i ==> trace[j] == Emit(rs[j])
      invariant forall j :: 0 <= j < i ==> sink(j).None?
    {
      var failure := sink(i);
      if failure.Some? {
        return trace, failure;
      }
      trace := trace + [Emit(rs[i])];
      i := i + 1;
    }
    err := None;
  }

  /** `run`: the inner closure, then, if it succeeded, the encoder. Build and
      evaluation errors are wrapped under "failed to execute flight wasm" and
      nothing is encoded after them; the encoder's error is returned as is.
      A caller-supplied module path is never removed; a built one is removed
      exactly once, before anything is emitted. */
  method Run(cfg: Config, build: BuildOutcome, eval: EvalRequest -> Result<seq<byte>, Error>,
             decode: seq<byte> -> Result<seq<Resource>, Error>, sink: nat -> Option<Error>)
    returns (trace: seq<Effect>, err: Option<Error>)
    ensures !cfg.flight.build ==>
      |trace| >= 1 && trace[0] == Eval(RequestFor(cfg, cfg.flight.wasm))
      && forall i :: 0 <= i < |trace| ==> !trace[i].Remove? && !trace[i].BuildCalled?
    ensures cfg.flight.build && build.failure.Some? ==>
      trace == [BuildCalled] && err == Some(Wrap(ExecuteContext, Wrap(BuildFailedContext, build.failure.value)))
    ensures cfg.flight.build && build.failure.None? ==>
      |trace| >= 3 && trace[..3] == [BuildCalled, Eval(RequestFor(cfg, build.path)), Remove(build.path)]
      && forall i :: 0 <= i < |trace| && trace[i].Remove? ==> i == 2
    ensures !(cfg.flight.build && build.failure.Some?) ==>
      var k := if cfg.flight.build then 3 else 1;
      |trace| >= k && forall j :: k <= j < |trace| ==> trace[j].Emit?
    ensures forall i, j :: 0 <= i < |trace| && 0 <= j < |trace| && trace[i].Remove? && trace[j].Emit? ==> i < j
    ensures forall i :: 0 <= i < |trace| && trace[i].Remove? ==> cfg.flight.build && trace[i].path == build.path
    ensures var path := if cfg.flight.build then build.path else cfg.flight.wasm;
      !(cfg.flight.build && build.failure.Some?) && eval(RequestFor(cfg, path)).Err? ==>
        err == Some(Wrap(ExecuteContext, eval(RequestFor(cfg, path)).error))
        && forall i :: 0 <= i < |trace| ==> !trace[i].Emit?
    ensures var path := if cfg.flight.build then build.path else cfg.flight.wasm;
      !(cfg.flight.build && build.failure.Some?) && eval(RequestFor(cfg, path)).Ok?
      && decode(eval(RequestFor(cfg, path)).value).Err? ==>
        err == Some(Wrap(UnmarshalContext, decode(eval(RequestFor(cfg, path)).value).error))
        && forall i :: 0 <= i < |trace| ==> !trace[i].Emit?
    ensures err.None? ==>
      var path := if cfg.flight.build then build.path else cfg.flight.wasm;
      !(cfg.flight.build && build.failure.Some?)
      && eval(RequestFor(cfg, path)).Ok?
      && decode(eval(RequestFor(cfg, path)).value).Ok?
    ensures var path := if cfg.flight.build then build.path else cfg.flight.wasm;
      var k := if cfg.flight.build then 3 else 1;
      !(cfg.flight.build && build.failure.Some?) && eval(RequestFor(cfg, path)).Ok?
      && decode(eval(RequestFor(cfg, path)).value).Ok? ==>
        var rs := decode(eval(RequestFor(cfg, path)).value).value;
        && k <= |trace| <= k + |rs|
        && (forall j :: k <= j < |trace| ==> trace[j] == Emit(rs[j - k]) && sink(j - k).None?)
        && (err.None? <==> |trace| == k + |rs|)
        && (err.Some? ==> err == sink(|trace| - k))
  {
    var data;
    trace, data := ExecuteFlight(cfg, build, eval);
    if data.Err? {
      return trace, Some(Wrap(ExecuteContext, data.error));
    }
    var emitted;
    emitted, err := EncodeResources(data.value, decode, sink);
    trace := trace + emitted;
  }
}
