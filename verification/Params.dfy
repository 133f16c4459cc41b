/** Parameter files with encrypted values (pkg/openshift/params.go). */
module Params {
  import opened Wrappers
  import opened Text

  // ---- text and lines ----

  /** Without space at either end. */
  predicate Trimmed(s: string) {
    s == "" || (!IsSpace(s[0]) && !IsSpace(s[|s| - 1]))
  }

  function TrimSuffix(s: string, suffix: string): string {
    if |suffix| <= |s| && s[|s| - |suffix|..] == suffix then s[..|s| - |suffix|] else s
  }

  function LinesOf(input: string): (lines: seq<string>)
    ensures lines != []
  {
    Split(TrimSuffix(input, "\n"), '\n')
  }

  function Unlines(lines: seq<string>): string {
    if lines == [] then "" else Unlines(lines[..|lines| - 1]) + lines[|lines| - 1] + "\n"
  }

  datatype Line = Passed(text: string) | Pair(key: string, val: string)

  /** The part of a line before the first equals sign. */
  function KeyPart(line: string): (key: string)
    ensures key <= line && '=' !in key && (|key| < |line| ==> line[|key|] == '=')
  {
    if line == "" || line[0] == '=' then "" else [line[0]] + KeyPart(line[1..])
  }

  /** Blank lines and comments are passed through; any other line is a key with a value, or with none. */
  function ParseLine(raw: string): Line {
    var line := TrimSpace(raw);
    if line == "" || line[0] == '#' then Passed(line)
    else
      var key := KeyPart(line);
      Pair(key, if |key| < |line| then line[|key| + 1..] else "")
  }

  function Render(line: Line): string {
    match line case Passed(text) => text case Pair(key, val) => key + "=" + val
  }

  // ---- conversions ----

  /** Decryption yields some text even when it fails. */
  datatype Opened = Opened(text: string, ok: bool)

  datatype Problem = NotDecrypted(val: string) | NotEncrypted(val: string)

  /** The cryptography, and base64. No two encryptions need to be equal: enc takes the number of the line. */
  datatype Crypto = Crypto(
    enc: (nat, string) -> Option<string>,
    dec: string -> Opened,
    base64: string -> string)

  datatype Conversion = Decrypt | Encode | Encrypt(previous: map<string, string>)

  function Convert(crypto: Crypto, conversion: Conversion, n: nat, key: string, val: string): Result<Line, Problem> {
    match conversion
    case Decrypt =>
      var clear := crypto.dec(val);
      if clear.ok then Success(Pair(key, clear.text)) else Failure(NotDecrypted(val))
    case Encode =>
      if TrimSuffix(key, ".B64") != key then Success(Pair(TrimSuffix(key, ".B64"), val))
      else Success(Pair(key, crypto.base64(val)))
    case Encrypt(previous) =>
      // Whether the previous value could be decrypted at all is not considered.
      if key in previous && crypto.dec(previous[key]).text == val then Success(Pair(key, previous[key]))
      else
        var encrypted := crypto.enc(n, val);
        if encrypted.Some? then Success(Pair(key, encrypted.value)) else Failure(NotEncrypted(val))
  }

  function ConvertAll(crypto: Crypto, conversions: seq<Conversion>, n: nat, key: string,
                      val: string): (r: Result<Line, Problem>)
    ensures r.Success? ==> r.value.Pair?
    decreases |conversions|
  {
    if conversions == [] then Success(Pair(key, val))
    else
      var r := Convert(crypto, conversions[0], n, key, val);
      if r.Failure? then r else ConvertAll(crypto, conversions[1..], n, r.value.key, r.value.val)
  }

  /** What becomes of the n-th line. */
  function TransformLine(crypto: Crypto, conversions: seq<Conversion>, n: nat, raw: string): Result<Line, Problem> {
    var line := ParseLine(raw);
    if line.Passed? then Success(line) else ConvertAll(crypto, conversions, n, line.key, line.val)
  }

  /** What becomes of all lines, or the problem with the first one that has one. */
  function TransformLines(crypto: Crypto, conversions: seq<Conversion>, lines: seq<string>): (r: Result<seq<Line>,
                                                                                                        Problem>)
    ensures r.Success? ==> |r.value| == |lines|
    ensures r.Success? ==> forall i :: 0 <= i < |lines| ==>
                                         TransformLine(crypto, conversions, i, lines[i]) == Success(r.value[i])
    ensures r.Failure? ==> exists i :: 0 <= i < |lines| && TransformLine(crypto, conversions, i, lines[i]).Failure?
  {
    if lines == [] then Success([])
    else
      var n := |lines| - 1;
      var init := TransformLines(crypto, conversions, lines[..n]);
      if init.Failure? then init
      else
        var last := TransformLine(crypto, conversions, n, lines[n]);
        if last.Failure? then Failure(last.error) else Success(init.value + [last.value])
  }

  function RenderAll(lines: seq<Line>): (r: seq<string>)
    ensures |r| == |lines| && forall i :: 0 <= i < |lines| ==> r[i] == Render(lines[i])
  {
    seq(|lines|, i requires 0 <= i < |lines| => Render(lines[i]))
  }

  function Transformed(crypto: Crypto, conversions: seq<Conversion>, input: string): Result<string, Problem> {
    var r := TransformLines(crypto, conversions, LinesOf(input));
    if r.Failure? then Failure(r.error) else Success(Unlines(RenderAll(r.value)))
  }

  method TransformValues(crypto: Crypto, input: string, conversions: seq<Conversion>) returns (r: Result<string,
                                                                                                         Problem>)
    ensures r == Transformed(crypto, conversions, input)
  {
    hide TransformLines, Unlines, RenderAll, ParseLine, Render, LinesOf, ConvertAll;
    var output := "";
    var lines := LinesOf(input);
    ghost var done: seq<Line> := [];
    NoLinesYet(crypto, conversions, lines);
    for i := 0 to |lines|
      invariant TransformLines(crypto, conversions, lines[..i]) == Success(done)
      invariant output == Unlines(RenderAll(done))
    {
      var line := ParseLine(lines[i]);
      if line.Pair? {
        var converted := ConvertAll(crypto, conversions, i, line.key, line.val);
        if converted.Failure? {
          FirstFailure(crypto, conversions, lines, i);
          return Failure(converted.error);
        }
        line := converted.value;
      }
      NextLine(crypto, conversions, lines, i, done, line);
      output := output + Render(line) + "\n";
      done := done + [line];
    }
    assert lines[..|lines|] == lines;
    return Success(output);
  }

  lemma NoLinesYet(crypto: Crypto, conversions: seq<Conversion>, lines: seq<string>)
    ensures TransformLines(crypto, conversions, lines[..0]) == Success([])
    ensures Unlines(RenderAll([])) == ""
  {
  }

  lemma NextLine(crypto: Crypto, conversions: seq<Conversion>, lines: seq<string>, i: nat, done: seq<Line>, line: Line)
    requires i < |lines| && TransformLines(crypto, conversions, lines[..i]) == Success(done)
    requires TransformLine(crypto, conversions, i, lines[i]) == Success(line)
    ensures TransformLines(crypto, conversions, lines[..i + 1]) == Success(done + [line])
    ensures Unlines(RenderAll(done + [line])) == Unlines(RenderAll(done)) + Render(line) + "\n"
  {
    hide TransformLine, Render;
    assert lines[..i + 1][..i] == lines[..i] && lines[..i + 1][i] == lines[i];
    assert RenderAll(done + [line])[..|done|] == RenderAll(done);
  }

  lemma {:induction false} FirstFailure(crypto: Crypto, conversions: seq<Conversion>, lines: seq<string>, i: nat)
    requires i < |lines| && TransformLines(crypto, conversions, lines[..i]).Success?
    requires TransformLine(crypto, conversions, i, lines[i]).Failure?
    ensures TransformLines(crypto, conversions, lines) == Failure(TransformLine(crypto, conversions, i, lines[i]).error)
    decreases |lines|
  {
    if i == |lines| - 1 {
      assert lines[..|lines| - 1] == lines[..i];
    } else {
      assert lines[..|lines| - 1][..i] == lines[..i];
      FirstFailure(crypto, conversions, lines[..|lines| - 1], i);
    }
  }

  // ---- the three uses ----

  /** The values by key; of several lines with one key, the last one counts. */
  function Values(lines: seq<string>): map<string, string> {
    if lines == [] then map[]
    else
      var init, last := Values(lines[..|lines| - 1]), ParseLine(lines[|lines| - 1]);
      if last.Passed? then init else init[last.key := last.val]
  }

  lemma NoValues(lines: seq<string>)
    ensures Values(lines[..0]) == map[]
  {
  }

  lemma NextValue(lines: seq<string>, i: nat)
    requires i < |lines|
    ensures var line := ParseLine(lines[i]);
            Values(lines[..i + 1]) == if line.Passed? then Values(lines[..i])
            else Values(lines[..i])[line.key := line.val]
  {
    hide ParseLine;
    assert lines[..i + 1][..i] == lines[..i] && lines[..i + 1][i] == lines[i];
  }

  method PreviousParams(previous: string) returns (previousParams: map<string, string>)
    ensures previousParams == Values(LinesOf(previous))
  {
    hide LinesOf, ParseLine, Values;
    var lines := LinesOf(previous);
    previousParams := map[];
    NoValues(lines);
    for i := 0 to |lines|
      invariant previousParams == Values(lines[..i])
    {
      NextValue(lines, i);
      var line := ParseLine(lines[i]);
      if line.Pair? {
        previousParams := previousParams[line.key := line.val];
      }
    }
    assert lines[..|lines|] == lines;
  }

  function Encrypting(previous: string): seq<Conversion> {
    [Encrypt(Values(LinesOf(previous)))]
  }

  method DecryptedParams(crypto: Crypto, input: string) returns (r: Result<string, Problem>)
    ensures r == Transformed(crypto, [Decrypt], input)
  {
    r := TransformValues(crypto, input, [Decrypt]);
  }

  method EncodedParams(crypto: Crypto, input: string) returns (r: Result<string, Problem>)
    ensures r == Transformed(crypto, [Decrypt, Encode], input)
  {
    r := TransformValues(crypto, input, [Decrypt, Encode]);
  }

  method EncryptedParams(crypto: Crypto, input: string, previous: string) returns (r: Result<string, Problem>)
    ensures r == Transformed(crypto, Encrypting(previous), input)
  {
    var previousParams := PreviousParams(previous);
    r := TransformValues(crypto, input, [Encrypt(previousParams)]);
  }
}
