/** The two Go standard-library string functions the parameter decoder relies
    on: `strconv.ParseBool` / `strconv.FormatBool` and `strings.TrimLeft` with a
    one-character cut set. */
module GoStd {
  import opened Errors

  /** The spellings `strconv.ParseBool` reads as true and as false. */
  const TrueTokens: set<string> := {"1", "t", "T", "TRUE", "true", "True"}
  const FalseTokens: set<string> := {"0", "f", "F", "FALSE", "false", "False"}

  /** The `*strconv.NumError` a rejected spelling produces: it names the
      function and the value, and unwraps to `strconv.ErrSyntax`. */
  function SyntaxError(s: string): Error {
    Wrap(NumErrorContext(s), Leaf("invalid syntax"))
  }

  /** The function name and quoted value a `*strconv.NumError` prints first. */
  function NumErrorContext(s: string): string {
    "strconv.ParseBool: parsing \"" + s + "\""
  }

  /** The syntax error prints as strconv prints it. */
  lemma SyntaxErrorMessage(s: string)
    ensures Message(SyntaxError(s)) == "strconv.ParseBool: parsing \"" + s + "\": invalid syntax"
  {
  }

  /** `strconv.ParseBool`: a switch over the twelve accepted spellings; any
      other string (the empty one, "yes", " true", "tRUE", ...) is a syntax error. */
  function ParseBool(s: string): (r: Result<bool, Error>)
    ensures r.Ok? <==> s in TrueTokens + FalseTokens
    ensures r == Ok(true) <==> s in TrueTokens
    ensures r == Ok(false) <==> s in FalseTokens
    ensures r.Err? ==> r.error == SyntaxError(s)
  {
    match s
    case "1" => Ok(true)
    case "t" => Ok(true)
    case "T" => Ok(true)
    case "TRUE" => Ok(true)
    case "true" => Ok(true)
    case "True" => Ok(true)
    case "0" => Ok(false)
    case "f" => Ok(false)
    case "F" => Ok(false)
    case "FALSE" => Ok(false)
    case "false" => Ok(false)
    case "False" => Ok(false)
    case _ => Err(SyntaxError(s))
  }

  /** `strconv.FormatBool`. */
  function FormatBool(b: bool): string {
    if b then "true" else "false"
  }

  /** ParseBool inverts FormatBool, and never accepts the empty string. */
  lemma ParseFormatBool(b: bool)
    ensures ParseBool(FormatBool(b)) == Ok(b)
    ensures ParseBool("").Err?
  {
  }

  /** True when every character of `s` is `c`. */
  predicate AllChars(s: string, c: char) {
    forall i :: 0 <= i < |s| ==> s[i] == c
  }

  /** `strings.TrimLeft(s, [c])`: the suffix of `s` left after removing every
      leading `c`. The result is a suffix of `s`, everything cut off is `c`, and
      the result does not itself start with `c`. */
  function TrimLeft(s: string, c: char): (r: string)
    ensures |r| <= |s| && r == s[|s| - |r|..]
    ensures forall i :: 0 <= i < |s| - |r| ==> s[i] == c
    ensures r == [] || r[0] != c
    decreases |s|
  {
    if |s| > 0 && s[0] == c then
      var r := TrimLeft(s[1..], c);
      assert s[1..][|s| - 1 - |r|..] == s[|s| - |r|..];
      assert forall i :: 1 <= i < |s| - |r| ==> s[i] == s[1..][i - 1];
      r
    else s
  }

  /** The result of trimming is empty exactly when the input is made only of
      the trimmed character. */
  lemma {:induction false} TrimLeftEmpty(s: string, c: char)
    ensures TrimLeft(s, c) == [] <==> AllChars(s, c)
    decreases |s|
  {
    if |s| > 0 && s[0] == c {
      TrimLeftEmpty(s[1..], c);
      assert forall i :: 1 <= i < |s| ==> s[i] == s[1..][i - 1];
    }
  }

  /** Trimming is idempotent, and a string that does not start with `c` is
      left as it is. */
  lemma TrimLeftFixed(s: string, c: char)
    ensures TrimLeft(TrimLeft(s, c), c) == TrimLeft(s, c)
    ensures (s == [] || s[0] != c) ==> TrimLeft(s, c) == s
  {
  }

  /** Any run of leading `c` in front of a string that does not start with
      `c` is removed, and nothing else is. */
  lemma TrimLeftPrefix(pre: string, t: string, c: char)
    requires AllChars(pre, c)
    requires t == [] || t[0] != c
    ensures TrimLeft(pre + t, c) == t
  {
    var s := pre + t;
    var r := TrimLeft(s, c);
    var n := |pre|;
    assert forall i :: 0 <= i < n ==> s[i] == pre[i] == c;
    assert |t| > 0 ==> s[n] == t[0] != c;
    assert |r| > 0 ==> r[0] == s[|s| - |r|];
    assert |r| == |t|;
    assert s[n..] == t;
  }
}
