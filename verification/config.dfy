/** The `Parameters` type of the yokecd plugin and its text decoder
    (cmd/yokecd/config.go). The decoder receives the parameter document already
    decoded into an ordered list of `{name, string, array}` records (fields `name`, `text`, `items` here), or the
    document decoder's error. */
module YokecdConfig {
  import opened Errors
  import opened GoStd
  import opened Internal

  /** One decoded parameter record. */
  datatype Param = Param(name: string, text: string, items: seq<string>)

  /** The validated flight parameters. */
  datatype Parameters = Parameters(build: bool, wasm: string, input: string, args: seq<string>)

  /** What a lookup yields when no record carries the name: Go's zero value. */
  const ZeroParam := Param("", "", [])

  /** The record names the decoder reads; every other name is ignored. */
  const Recognized: set<string> := {"build", "wasm", "input", "args"}

  const InvalidContext := "invalid config"
  const BuildContext := "parsing parameter build"
  const NeitherText := "wasm parameter must be provided or build enabled"
  const BothText := "wasm asset cannot be present and build enabled"

  /** The first record named `name`, or the zero record. */
  function Lookup(elems: seq<Param>, name: string): Param {
    Find(elems, (p: Param) => p.name == name).GetOr(ZeroParam)
  }

  /** The build flag a `build` string denotes: false when the string is
      empty (nothing is parsed), otherwise the result of ParseBool. */
  function BuildFlagOf(s: string): Result<bool, Error> {
    if s == "" then Ok(false) else ParseBool(s)
  }

  /** The build flag of the first `build` record. */
  function BuildFlag(elems: seq<Param>): Result<bool, Error> {
    BuildFlagOf(Lookup(elems, "build").text)
  }

  /** The module path: the first `wasm` record's string with its leading
      slashes removed. */
  function WasmPath(elems: seq<Param>): string {
    TrimLeft(Lookup(elems, "wasm").text, '/')
  }

  /** The invariant every decoded parameter set satisfies: exactly one of
      "build enabled" and "module path given", and a path that does not start
      with a slash. */
  predicate Valid(p: Parameters) {
    p.build != (p.wasm != "") && (p.wasm == "" || p.wasm[0] != '/')
  }

  /** The body of the decoder once the document is decoded, given the first
      record of each recognised name: parse the build flag, trim the module
      path, enforce exclusivity, copy input and arguments. Its errors are not
      yet prefixed. */
  function Resolve(build: Param, wasm: Param, input: Param, args: Param): (r: Result<Parameters, Error>)
    ensures r.Ok? ==> Valid(r.value)
    ensures r.Ok? ==> r.value.input == input.text && r.value.args == args.items
    ensures r.Ok? ==> r.value.wasm == TrimLeft(wasm.text, '/')
    ensures r.Ok? ==> (r.value.build <==> build.text in TrueTokens)
  {
    var flag := BuildFlagOf(build.text);
    assert flag.Ok? ==> (flag.value <==> build.text in TrueTokens) by {
      assert "" !in TrueTokens;
    }
    if flag.Err? then Err(Wrap(BuildContext, flag.error))
    else
      var path := TrimLeft(wasm.text, '/');
      if path == "" && !flag.value then Err(Leaf(NeitherText))
      else if path != "" && flag.value then Err(Leaf(BothText))
      else Ok(Parameters(flag.value, path, input.text, args.items))
  }

  /** `Parameters.UnmarshalText`, starting from a zero-valued receiver. Every
      error it returns, the document decoder's included, is wrapped under
      "invalid config"; success yields a valid parameter set. */
  function UnmarshalText(doc: Result<seq<Param>, Error>): (r: Result<Parameters, Error>)
    ensures r.Ok? ==> Valid(r.value)
    ensures r.Err? ==> r.error.Wrap? && r.error.context == InvalidContext
    ensures doc.Err? ==> r == Err(Wrap(InvalidContext, doc.error))
  {
    match doc
    case Err(e) => Err(Wrap(InvalidContext, e))
    case Ok(elems) =>
      var r := Resolve(Lookup(elems, "build"), Lookup(elems, "wasm"), Lookup(elems, "input"), Lookup(elems, "args"));
      if r.Err? then Err(Wrap(InvalidContext, r.error)) else r
  }

  /** The text of every error the decoder returns, as `main` prints it,
      starts with "invalid config: ". */
  lemma InvalidConfigMessage(doc: Result<seq<Param>, Error>)
    ensures UnmarshalText(doc).Err? ==> StartsWith(Message(UnmarshalText(doc).error), InvalidContext + ": ")
  {
    var r := UnmarshalText(doc);
    if r.Err? {
      var m := Message(r.error);
      assert m == InvalidContext + ": " + Message(r.error.cause);
      assert m[..|InvalidContext + ": "|] == InvalidContext + ": ";
    }
  }

  /** A missing or empty first `build` record leaves the flag false and is
      never parsed: the outcome then depends on the module path alone. */
  lemma BuildAbsentOrEmpty(elems: seq<Param>)
    requires Lookup(elems, "build").text == ""
    ensures WasmPath(elems) == "" ==> UnmarshalText(Ok(elems)) == Err(Wrap(InvalidContext, Leaf(NeitherText)))
    ensures WasmPath(elems) != "" ==> UnmarshalText(Ok(elems)).Ok? && !UnmarshalText(Ok(elems)).value.build
  {
  }

  /** A non-empty `build` string outside ParseBool's spellings fails with the
      build parsing error, whatever the `wasm` record says. */
  lemma BadBuildToken(elems: seq<Param>)
    requires Lookup(elems, "build").text != ""
    requires Lookup(elems, "build").text !in TrueTokens + FalseTokens
    ensures UnmarshalText(Ok(elems))
         == Err(Wrap(InvalidContext, Wrap(BuildContext, SyntaxError(Lookup(elems, "build").text))))
  {
  }

  /** The decoder succeeds exactly when the build string is empty or a
      ParseBool spelling and exactly one of build and a module path is
      given; the neither case and the both case each fail with their own
      message. */
  lemma Partition(elems: seq<Param>)
    ensures UnmarshalText(Ok(elems)).Ok?
        <==> BuildFlag(elems).Ok? && BuildFlag(elems).value != (WasmPath(elems) != "")
    ensures BuildFlag(elems) == Ok(false) && WasmPath(elems) == ""
        ==> UnmarshalText(Ok(elems)) == Err(Wrap(InvalidContext, Leaf(NeitherText)))
    ensures BuildFlag(elems) == Ok(true) && WasmPath(elems) != ""
        ==> UnmarshalText(Ok(elems)) == Err(Wrap(InvalidContext, Leaf(BothText)))
  {
  }

  /** On success each field is the first record's value: the build flag as
      parsed, the module path with every leading slash removed, input and
      arguments verbatim (empty when the record is absent). */
  lemma Fields(elems: seq<Param>)
    requires UnmarshalText(Ok(elems)).Ok?
    ensures var p := UnmarshalText(Ok(elems)).value;
      && (p.build <==> Lookup(elems, "build").text in TrueTokens)
      && p.wasm == TrimLeft(Lookup(elems, "wasm").text, '/')
      && p.input == Lookup(elems, "input").text
      && p.args == Lookup(elems, "args").items
  {
    var build := Lookup(elems, "build");
    var r := Resolve(build, Lookup(elems, "wasm"), Lookup(elems, "input"), Lookup(elems, "args"));
    assert UnmarshalText(Ok(elems)) == r;
    assert r.value.build == BuildFlagOf(build.text).value;
  }

  /** A `wasm` value made only of slashes counts as no module path at all. */
  lemma {:induction false} SlashesOnlyIsNoPath(elems: seq<Param>)
    requires AllChars(Lookup(elems, "wasm").text, '/')
    ensures WasmPath(elems) == ""
    ensures UnmarshalText(Ok(elems)).Ok? ==> UnmarshalText(Ok(elems)).value.build
  {
    TrimLeftEmpty(Lookup(elems, "wasm").text, '/');
  }

  /** A record whose name the decoder does not read, or whose name already
      occurs earlier in the list, has no effect on the outcome. */
  lemma IrrelevantRecord(a: seq<Param>, x: Param, b: seq<Param>)
    requires x.name !in Recognized || exists k :: 0 <= k < |a| && a[k].name == x.name
    ensures UnmarshalText(Ok(a + [x] + b)) == UnmarshalText(Ok(a + b))
  {
    forall n | n in Recognized
      ensures Lookup(a + [x] + b, n) == Lookup(a + b, n)
    {
      var p := (q: Param) => q.name == n;
      if x.name != n {
        FindIgnores(a, x, b, p);
      } else {
        var k :| 0 <= k < |a| && a[k].name == x.name;
        assert p(a[k]);
        FindIgnores(a, x, b, p);
      }
    }
  }

  /** The lookup returns the record at `i` when it is the first one named `name`. */
  lemma LookupAt(elems: seq<Param>, name: string, i: nat)
    requires i < |elems| && elems[i].name == name
    requires forall j :: 0 <= j < i ==> elems[j].name != name
    ensures Lookup(elems, name) == elems[i]
  {
    var k := FirstIndex(elems, (q: Param) => q.name == name);
    assert k == i;
  }

  /** The document that lists each field of `p` once. */
  function Encode(p: Parameters): seq<Param> {
    [ Param("build", FormatBool(p.build), []),
      Param("wasm", p.wasm, []),
      Param("input", p.input, []),
      Param("args", "", p.args) ]
  }

  /** Each recognised name is looked up at its own position of `Encode(p)`. */
  lemma EncodeLookups(p: Parameters)
    ensures Lookup(Encode(p), "build").text == FormatBool(p.build)
    ensures Lookup(Encode(p), "wasm").text == p.wasm
    ensures Lookup(Encode(p), "input").text == p.input
    ensures Lookup(Encode(p), "args").items == p.args
  {
    var elems := Encode(p);
    LookupAt(elems, "build", 0);
    LookupAt(elems, "wasm", 1);
    LookupAt(elems, "input", 2);
    LookupAt(elems, "args", 3);
  }

  /** The decoder's outcome on a list whose four lookups give the fields of
      a valid parameter set. */
  lemma DecodesTo(elems: seq<Param>, p: Parameters)
    requires Valid(p)
    requires BuildFlag(elems) == Ok(p.build)
    requires WasmPath(elems) == p.wasm
    requires Lookup(elems, "input").text == p.input
    requires Lookup(elems, "args").items == p.args
    ensures UnmarshalText(Ok(elems)) == Ok(p)
  {
  }

  /** Every valid parameter set is produced by some document: decoding the
      document that lists its fields gives it back. */
  lemma EncodeRoundTrip(p: Parameters)
    requires Valid(p)
    ensures UnmarshalText(Ok(Encode(p))) == Ok(p)
  {
    var elems := Encode(p);
    EncodeLookups(p);
    ParseFormatBool(p.build);
    TrimLeftFixed(p.wasm, '/');
    DecodesTo(elems, p);
  }
}
