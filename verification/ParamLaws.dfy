/** What parameter files keep when they are encrypted, decrypted, and saved again. */
module ParamLaws {
  import opened Wrappers
  import opened Text
  import opened Params

  // ---- trimming ----

  lemma {:induction false} TrimLeftIs(s: string)
    ensures |TrimLeft(s)| <= |s| && TrimLeft(s) == s[|s| - |TrimLeft(s)|..]
    ensures TrimLeft(s) != "" ==> !IsSpace(TrimLeft(s)[0])
  {
    if s != "" && IsSpace(s[0]) { TrimLeftIs(s[1..]); }
  }

  lemma {:induction false} TrimRightIs(s: string)
    ensures TrimRight(s) <= s && (TrimRight(s) != "" ==> !IsSpace(TrimRight(s)[|TrimRight(s)| - 1]))
  {
    if s != "" && IsSpace(s[|s| - 1]) { TrimRightIs(s[..|s| - 1]); }
  }

  lemma TrimIs(s: string)
    ensures Trimmed(TrimSpace(s)) && (Trimmed(s) ==> TrimSpace(s) == s)
    ensures forall c :: c in TrimSpace(s) ==> c in s
  {
    TrimLeftIs(s);
    TrimRightIs(TrimLeft(s));
  }

  predicate AllSpace(s: string) {
    forall i :: 0 <= i < |s| ==> IsSpace(s[i])
  }

  /** Space before a text goes, up to its first other character. */
  lemma {:induction false} TrimLeftOf(a: string, s: string)
    requires AllSpace(a) && (s != "" ==> !IsSpace(s[0]))
    ensures TrimLeft(a + s) == s
  {
    if a == "" {
      assert a + s == s;
    } else {
      TrimLeftOf(a[1..], s);
      assert (a + s)[1..] == a[1..] + s;
    }
  }

  lemma {:induction false} TrimRightOf(s: string, b: string)
    requires AllSpace(b) && (s != "" ==> !IsSpace(s[|s| - 1]))
    ensures TrimRight(s + b) == s
  {
    if b == "" {
      assert s + b == s;
    } else {
      TrimRightOf(s, b[..|b| - 1]);
      assert (s + b)[..|s + b| - 1] == s + b[..|b| - 1];
    }
  }

  /** Trimming leaves what is between the space at both ends. */
  lemma TrimSpaceOf(a: string, s: string, b: string)
    requires AllSpace(a) && AllSpace(b) && Trimmed(s)
    ensures TrimSpace(a + s + b) == s
  {
    hide TrimLeft, TrimRight;
    if s == "" {
      assert a + s + b == a + b + "";
      TrimLeftOf(a + b, "");
      TrimRightOf("", "");
      assert "" + "" == "";
    } else {
      assert a + s + b == a + (s + b) && (s + b)[0] == s[0];
      TrimLeftOf(a, s + b);
      TrimRightOf(s, b);
    }
  }

  /** Of the first 128 characters, these are space. */
  lemma SpaceCharacters(c: char)
    requires c as int < 128
    ensures IsSpace(c) <==> c in "\t\n\U{0B}\U{0C}\r "
  {
    var spaces := "\t\n\U{0B}\U{0C}\r ";
    assert spaces[0] == '\t' && spaces[1] == '\n' && spaces[2] == '\U{0B}' && spaces[3] == '\U{0C}';
    assert spaces[4] == '\r' && spaces[5] == ' ';
  }

  // ---- lines ----

  lemma LinesHaveNoBreaks(input: string)
    ensures forall i :: 0 <= i < |LinesOf(input)| ==> '\n' !in LinesOf(input)[i]
  {
    SplitParts(TrimSuffix(input, "\n"), '\n');
  }

  lemma {:induction false} UnlinesHead(lines: seq<string>)
    requires lines != []
    ensures Unlines(lines) == lines[0] + "\n" + Unlines(lines[1..])
  {
    var init, last := lines[..|lines| - 1], lines[|lines| - 1];
    if |lines| == 1 {
      assert Unlines(lines[..0]) == "" && Unlines(lines[1..]) == "";
      assert "" + lines[0] + "\n" == lines[0] + "\n" + "";
    } else {
      UnlinesHead(init);
      assert init[1..] == lines[1..][..|lines| - 2] && init[0] == lines[0];
      var middle := Unlines(init[1..]);
      assert Unlines(lines[1..]) == middle + last + "\n";
      assert (lines[0] + "\n" + middle) + last + "\n" == lines[0] + "\n" + (middle + last + "\n");
    }
  }

  lemma {:induction false} SplitLines(lines: seq<string>)
    requires lines != [] && forall i :: 0 <= i < |lines| ==> '\n' !in lines[i]
    ensures Split(Unlines(lines[..|lines| - 1]) + lines[|lines| - 1], '\n') == lines
  {
    var last := lines[|lines| - 1];
    if |lines| == 1 {
      assert Unlines(lines[..0]) + last == last;
      SplitWhole(last, '\n');
    } else {
      var rest := lines[1..];
      SplitLines(rest);
      UnlinesHead(lines[..|lines| - 1]);
      assert lines[..|lines| - 1][1..] == rest[..|rest| - 1];
      var more := Unlines(rest[..|rest| - 1]) + last;
      assert Unlines(lines[..|lines| - 1]) + last == lines[0] + ['\n'] + more;
      SplitHead(lines[0], '\n', more);
    }
  }

  /** Lines are read back as they were written. */
  lemma LinesOfUnlines(lines: seq<string>)
    requires lines != [] && forall i :: 0 <= i < |lines| ==> '\n' !in lines[i]
    ensures LinesOf(Unlines(lines)) == lines
  {
    SplitLines(lines);
    var text := Unlines(lines[..|lines| - 1]) + lines[|lines| - 1];
    assert Unlines(lines) == text + "\n";
    assert (text + "\n")[..|text|] == text;
  }

  /** The last line need not be ended. */
  lemma LinesOfUnended(lines: seq<string>)
    requires lines != [] && forall i :: 0 <= i < |lines| ==> '\n' !in lines[i]
    requires lines[|lines| - 1] != ""
    ensures LinesOf(Unlines(lines[..|lines| - 1]) + lines[|lines| - 1]) == lines
  {
    SplitLines(lines);
    var last := lines[|lines| - 1];
    var text := Unlines(lines[..|lines| - 1]) + last;
    assert text[|text| - 1] == last[|last| - 1];
    assert text[|text| - 1..] == [last[|last| - 1]];
    assert text[|text| - 1] != '\n';
  }

  // ---- single lines ----

  /** A value as it can be read from a line. */
  predicate ProperValue(val: string) {
    '\n' !in val && (val != "" ==> !IsSpace(val[|val| - 1]))
  }

  predicate ProperKey(key: string) {
    '=' !in key && '\n' !in key && (key != "" ==> !IsSpace(key[0]) && key[0] != '#')
  }

  /** A line as it can be read from a text. */
  predicate Proper(line: Line) {
    match line
    case Passed(text) => Trimmed(text) && '\n' !in text && (text != "" ==> text[0] == '#')
    case Pair(key, val) => ProperKey(key) && ProperValue(val)
  }

  lemma ParsedIsProper(raw: string)
    requires '\n' !in raw
    ensures Proper(ParseLine(raw))
  {
    TrimIs(raw);
    var line := TrimSpace(raw);
    var key := KeyPart(line);
    if |key| < |line| {
      var val := line[|key| + 1..];
      assert val != "" ==> val[|val| - 1] == line[|line| - 1];
    }
  }

  lemma {:induction false} KeyPartWhole(line: string)
    requires '=' !in line
    ensures KeyPart(line) == line
  {
    if line != "" {
      KeyPartWhole(line[1..]);
      assert line == [line[0]] + line[1..];
    }
  }

  /** What any line says, whatever space is around it: nothing if it is blank or a comment; a key without a value if it
      has no equals sign; otherwise the key is what is before the first equals sign, the value what is behind it. */
  lemma ParseAnyLine(a: string, line: string, b: string)
    requires AllSpace(a) && AllSpace(b) && Trimmed(line)
    ensures var parsed := ParseLine(a + line + b);
            if line == "" || line[0] == '#' then parsed == Passed(line)
            else if '=' !in line then parsed == Pair(line, "")
            else parsed.Pair? && line == parsed.key + "=" + parsed.val && '=' !in parsed.key
  {
    hide TrimSpace;
    TrimSpaceOf(a, line, b);
    if '=' !in line {
      KeyPartWhole(line);
    } else {
      var key := KeyPart(line);
      assert key == line ==> '=' in key;
      assert line == key + "=" + line[|key| + 1..];
    }
  }

  /** Every line has such a form. */
  lemma AnyLineHasThisForm(raw: string) returns (a: string, line: string, b: string)
    ensures AllSpace(a) && AllSpace(b) && Trimmed(line) && raw == a + line + b
  {
    a, b := "", "";
    line := raw;
    while line != "" && IsSpace(line[0])
      invariant AllSpace(a) && raw == a + line
      decreases |line|
    {
      a, line := a + [line[0]], line[1..];
    }
    while line != "" && IsSpace(line[|line| - 1])
      invariant AllSpace(b) && raw == a + line + b && (line != "" ==> !IsSpace(line[0]))
      decreases |line|
    {
      b, line := [line[|line| - 1]] + b, line[..|line| - 1];
    }
  }

  lemma {:induction false} KeyPartOf(key: string, rest: string)
    requires '=' !in key
    ensures KeyPart(key + "=" + rest) == key
  {
    var line := key + "=" + rest;
    if key != "" {
      KeyPartOf(key[1..], rest);
      assert line[1..] == key[1..] + "=" + rest;
    }
  }

  /** A line is read back as it was written. */
  lemma ParseRendered(line: Line)
    requires Proper(line)
    ensures ParseLine(Render(line)) == line && '\n' !in Render(line)
  {
    var s := Render(line);
    match line {
      case Passed(text) =>
        TrimIs(s);
      case Pair(key, val) =>
        assert s[0] == (if key == "" then '=' else key[0]);
        assert s[|s| - 1] == (if val == "" then '=' else val[|val| - 1]);
        TrimIs(s);
        KeyPartOf(key, val);
    }
  }

  // ---- whole texts ----

  function Parsed(input: string): (lines: seq<Line>)
    ensures |lines| == |LinesOf(input)| && forall i :: 0 <= i < |lines| ==> lines[i] == ParseLine(LinesOf(input)[i])
  {
    var lines := LinesOf(input);
    seq(|lines|, i requires 0 <= i < |lines| => ParseLine(lines[i]))
  }

  /** Lines trimmed, keys without a value with an equals sign, and a line break at the end. */
  function Normal(input: string): string {
    Unlines(RenderAll(Parsed(input)))
  }

  ghost predicate AllProperLines(lines: seq<Line>) {
    lines != [] && forall i :: 0 <= i < |lines| ==> Proper(lines[i])
  }

  lemma ParsedAreProper(input: string)
    ensures AllProperLines(Parsed(input))
  {
    LinesHaveNoBreaks(input);
    forall i | 0 <= i < |Parsed(input)| ensures Proper(Parsed(input)[i]) { ParsedIsProper(LinesOf(input)[i]); }
  }

  /** A text is read back as it was written. */
  lemma ParsedOfRendered(lines: seq<Line>)
    requires AllProperLines(lines)
    ensures LinesOf(Unlines(RenderAll(lines))) == RenderAll(lines) && Parsed(Unlines(RenderAll(lines))) == lines
  {
    hide Proper, ParseLine, Render, LinesOf, Unlines;
    forall i | 0 <= i < |lines| ensures ParseLine(Render(lines[i])) == lines[i] && '\n' !in Render(lines[i]) {
      ParseRendered(lines[i]);
    }
    LinesOfUnlines(RenderAll(lines));
  }

  /** Bringing a text in normal form keeps what it says, and doing so again changes nothing. */
  lemma NormalIsIdempotent(input: string)
    ensures Parsed(Normal(input)) == Parsed(input) && Normal(Normal(input)) == Normal(input)
  {
    ParsedAreProper(input);
    ParsedOfRendered(Parsed(input));
  }

  /** The conversion of all lines, one by one. */
  lemma TransformedAre(crypto: Crypto, conversions: seq<Conversion>, input: string, lines: seq<Line>)
    requires |lines| == |LinesOf(input)|
    requires forall i :: 0 <= i < |lines| ==>
                           TransformLine(crypto, conversions, i, LinesOf(input)[i]) == Success(lines[i])
    ensures Transformed(crypto, conversions, input) == Success(Unlines(RenderAll(lines)))
  {
    hide TransformLine, LinesOf, Unlines, RenderAll;
    var r := TransformLines(crypto, conversions, LinesOf(input));
    if r.Success? {
      assert forall i :: 0 <= i < |lines| ==> r.value[i] == lines[i];
      assert r.value == lines;
    }
  }

  /** What is written for each line: comments and blank lines as they are, anything else as key=value. */
  lemma TransformedIsWritten(crypto: Crypto, conversions: seq<Conversion>, input: string, out: string)
    returns (written: seq<string>)
    requires Transformed(crypto, conversions, input) == Success(out)
    ensures |written| == |LinesOf(input)| && out == Unlines(written)
    ensures forall i :: 0 <= i < |written| ==>
                          var line := ParseLine(LinesOf(input)[i]);
                          if line.Passed? then written[i] == line.text
                          else
                            var converted := ConvertAll(crypto, conversions, i, line.key, line.val);
                            converted.Success? && written[i] == converted.value.key + "=" + converted.value.val
  {
    hide LinesOf, Unlines, ParseLine, ConvertAll;
    var lines := TransformLines(crypto, conversions, LinesOf(input)).value;
    written := RenderAll(lines);
    forall i | 0 <= i < |written|
      ensures TransformLine(crypto, conversions, i, LinesOf(input)[i]) == Success(lines[i])
      ensures written[i] == Render(lines[i])
    {
    }
  }

  /** The i-th line gives the key this value, and no later line has the key. */
  ghost predicate LastFor(lines: seq<string>, key: string, val: string, i: int) {
    && 0 <= i < |lines| && ParseLine(lines[i]) == Pair(key, val)
    && forall k :: i < k < |lines| && ParseLine(lines[k]).Pair? ==> ParseLine(lines[k]).key != key
  }

  /** The last line with a key gives its value. */
  lemma {:induction false} ValuesMeaning(lines: seq<string>, key: string, val: string)
    ensures key in Values(lines) && Values(lines)[key] == val <==> exists i :: LastFor(lines, key, val, i)
  {
    hide ParseLine;
    if lines != [] {
      var n := |lines| - 1;
      ValuesMeaning(lines[..n], key, val);
      var last := ParseLine(lines[n]);
      if last.Pair? && last.key == key {
        assert LastFor(lines, key, last.val, n);
      } else {
        forall i ensures LastFor(lines, key, val, i) <==> LastFor(lines[..n], key, val, i) {
          assert 0 <= i < n ==> lines[..n][i] == lines[i];
        }
      }
    }
  }

  // ---- encrypting and decrypting ----

  /** Decryption inverts encryption, and encrypted values hold no space. */
  ghost predicate Sound(crypto: Crypto) {
    forall n, val :: crypto.enc(n, val).Some? ==>
                       && crypto.dec(crypto.enc(n, val).value) == Opened(val, true)
                       && forall c :: c in crypto.enc(n, val).value ==> !IsSpace(c)
  }

  /** The line keeps a previous value that cannot be decrypted, but whose failed decryption yields the new one. */
  predicate KeepsUnreadable(crypto: Crypto, previous: map<string, string>, line: Line) {
    line.Pair? && line.key in previous && crypto.dec(previous[line.key]) == Opened(line.val, false)
  }

  ghost predicate AnyUnreadableKept(crypto: Crypto, input: string, previous: string) {
    exists i :: 0 <= i < |Parsed(input)| && KeepsUnreadable(crypto, Values(LinesOf(previous)), Parsed(input)[i])
  }

  ghost predicate ProperValues(values: map<string, string>) {
    forall k :: k in values ==> ProperValue(values[k])
  }

  lemma {:induction false} ValuesAreProper(lines: seq<string>)
    requires forall i :: 0 <= i < |lines| ==> '\n' !in lines[i]
    ensures ProperValues(Values(lines))
  {
    if lines != [] {
      ValuesAreProper(lines[..|lines| - 1]);
      ParsedIsProper(lines[|lines| - 1]);
    }
  }

  lemma SingleConversion(crypto: Crypto, conversion: Conversion, n: nat, key: string, val: string)
    ensures ConvertAll(crypto, [conversion], n, key, val) == Convert(crypto, conversion, n, key, val)
  {
    var r := Convert(crypto, conversion, n, key, val);
    assert [conversion][1..] == [];
    if r.Success? { assert ConvertAll(crypto, [], n, r.value.key, r.value.val) == r; }
  }

  /** What encrypting makes of one line. */
  lemma EncryptedLine(crypto: Crypto, previous: map<string, string>, n: nat, raw: string, e: Line)
    requires Sound(crypto) && ProperValues(previous) && '\n' !in raw
    requires TransformLine(crypto, [Encrypt(previous)], n, raw) == Success(e)
    ensures Proper(e)
    ensures var line := ParseLine(raw);
            if line.Passed? then e == line
            else
              && e.Pair? && e.key == line.key && crypto.dec(e.val).text == line.val
              && (!crypto.dec(e.val).ok <==> KeepsUnreadable(crypto, previous, line))
              && (line.key in previous && crypto.dec(previous[line.key]).text == line.val ==>
                    e.val == previous[line.key])
  {
    ParsedIsProper(raw);
    var line := ParseLine(raw);
    if line.Pair? {
      SingleConversion(crypto, Encrypt(previous), n, line.key, line.val);
      if !(line.key in previous && crypto.dec(previous[line.key]).text == line.val) {
        assert e.val == crypto.enc(n, line.val).value;
        EncryptedIsProper(crypto, n, line.val);
      }
    }
  }

  lemma EncryptedIsProper(crypto: Crypto, n: nat, val: string)
    requires Sound(crypto) && crypto.enc(n, val).Some?
    ensures ProperValue(crypto.enc(n, val).value)
  {
    var e := crypto.enc(n, val).value;
    assert IsSpace('\n');
    assert forall i :: 0 <= i < |e| ==> e[i] in e;
  }

  /** The lines of an encrypted text, and how they relate to those of the clear text. */
  lemma EncryptedLines(crypto: Crypto, input: string, previous: string, out: string) returns (es: seq<Line>)
    requires Sound(crypto) && Transformed(crypto, Encrypting(previous), input) == Success(out)
    ensures AllProperLines(es) && |es| == |Parsed(input)| && out == Unlines(RenderAll(es))
    ensures LinesOf(out) == RenderAll(es) && Parsed(out) == es
    ensures forall i :: 0 <= i < |es| ==>
                          TransformLine(crypto, Encrypting(previous), i, LinesOf(input)[i]) == Success(es[i])
  {
    hide TransformLine, Proper, LinesOf, Unlines, ParseLine, Sound, ProperValues;
    LinesHaveNoBreaks(previous);
    ValuesAreProper(LinesOf(previous));
    LinesHaveNoBreaks(input);
    es := TransformLines(crypto, Encrypting(previous), LinesOf(input)).value;
    forall i | 0 <= i < |es| ensures Proper(es[i]) {
      EncryptedLine(crypto, Values(LinesOf(previous)), i, LinesOf(input)[i], es[i]);
    }
    ParsedOfRendered(es);
  }

  lemma DecryptedLine(crypto: Crypto, n: nat, line: Line)
    requires Proper(line)
    ensures TransformLine(crypto, [Decrypt], n, Render(line)) ==
            if line.Passed? then Success(line)
            else if crypto.dec(line.val).ok then Success(Pair(line.key, crypto.dec(line.val).text))
            else Failure(NotDecrypted(line.val))
  {
    ParseRendered(line);
    if line.Pair? { SingleConversion(crypto, Decrypt, n, line.key, line.val); }
  }

  /** Decrypting what was encrypted yields the text in normal form, unless an unreadable previous value was
      kept; then decrypting fails. */
  lemma RoundTrip(crypto: Crypto, input: string, previous: string, out: string)
    requires Sound(crypto) && Transformed(crypto, Encrypting(previous), input) == Success(out)
    ensures Transformed(crypto, [Decrypt], out) == Success(Normal(input)) <==>
            !AnyUnreadableKept(crypto, input, previous)
    ensures Transformed(crypto, [Decrypt], out).Failure? <==> AnyUnreadableKept(crypto, input, previous)
  {
    hide TransformLine, Proper, LinesOf, Unlines, ParseLine, Sound, ProperValues, Render;
    var values := Values(LinesOf(previous));
    LinesHaveNoBreaks(previous);
    ValuesAreProper(LinesOf(previous));
    LinesHaveNoBreaks(input);
    var es := EncryptedLines(crypto, input, previous, out);
    var lines := Parsed(input);
    forall i | 0 <= i < |lines|
      ensures if KeepsUnreadable(crypto, values, lines[i]) then
                TransformLine(crypto, [Decrypt], i, LinesOf(out)[i]).Failure?
              else TransformLine(crypto, [Decrypt], i, LinesOf(out)[i]) == Success(lines[i])
    {
      EncryptedLine(crypto, values, i, LinesOf(input)[i], es[i]);
      DecryptedLine(crypto, i, es[i]);
    }
    if AnyUnreadableKept(crypto, input, previous) {
      var i :| 0 <= i < |lines| && KeepsUnreadable(crypto, values, lines[i]);
      assert TransformLine(crypto, [Decrypt], i, LinesOf(out)[i]).Failure?;
    } else {
      TransformedAre(crypto, [Decrypt], out, lines);
    }
  }

  /** Such a case: emptying a value whose previous encrypted form cannot be decrypted keeps that form. */
  lemma EmptiedValueStaysUnreadable(crypto: Crypto)
    requires crypto.dec("damaged") == Opened("", false)
    ensures Transformed(crypto, Encrypting("KEY=damaged\n"), "KEY=\n") == Success("KEY=damaged\n")
    ensures AnyUnreadableKept(crypto, "KEY=\n", "KEY=damaged\n")
  {
    hide LinesOf, Unlines, ParseLine, Render;
    var clear, saved := [Pair("KEY", "")], [Pair("KEY", "damaged")];
    OneLine("KEY", "");
    OneLine("KEY", "damaged");
    assert "KEY" + "=" + "" + "\n" == "KEY=\n" && "KEY" + "=" + "damaged" + "\n" == "KEY=damaged\n";
    assert LinesOf("KEY=damaged\n")[..0] == [];
    assert Values(LinesOf("KEY=damaged\n")[..0]) == map[];
    assert Values(LinesOf("KEY=damaged\n")) == map["KEY" := "damaged"];
    SingleConversion(crypto, Encrypt(map["KEY" := "damaged"]), 0, "KEY", "");
    assert Parsed("KEY=\n")[0] == clear[0];
    TransformedAre(crypto, Encrypting("KEY=damaged\n"), "KEY=\n", saved);
  }

  lemma OneLine(key: string, val: string)
    requires Proper(Pair(key, val))
    ensures Unlines(RenderAll([Pair(key, val)])) == key + "=" + val + "\n"
    ensures Parsed(key + "=" + val + "\n") == [Pair(key, val)] && |LinesOf(key + "=" + val + "\n")| == 1
    ensures ParseLine(LinesOf(key + "=" + val + "\n")[0]) == Pair(key, val)
  {
    var lines := [Pair(key, val)];
    assert RenderAll(lines) == [key + "=" + val];
    assert Unlines([key + "=" + val][..0]) == "";
    assert "" + (key + "=" + val) + "\n" == key + "=" + val + "\n";
    ParsedOfRendered(lines);
    assert Parsed(key + "=" + val + "\n")[0] == Pair(key, val);
  }

  /** What is passed on to the platform from the encrypted file is what encoding the clear text yields. */
  lemma EncodingSeesClearText(crypto: Crypto, input: string, previous: string, out: string)
    requires Sound(crypto) && Transformed(crypto, Encrypting(previous), input) == Success(out)
    requires !AnyUnreadableKept(crypto, input, previous)
    ensures Transformed(crypto, [Decrypt, Encode], out) == Transformed(crypto, [Encode], input)
  {
    hide TransformLine, Proper, LinesOf, Unlines, ParseLine, Sound, ProperValues, Render;
    var values := Values(LinesOf(previous));
    LinesHaveNoBreaks(previous);
    ValuesAreProper(LinesOf(previous));
    LinesHaveNoBreaks(input);
    var es := EncryptedLines(crypto, input, previous, out);
    var lines := Parsed(input);
    var encoded := seq(|lines|, i requires 0 <= i < |lines| => EncodedLine(crypto, lines[i]));
    forall i | 0 <= i < |lines|
      ensures TransformLine(crypto, [Decrypt, Encode], i, LinesOf(out)[i]) == Success(encoded[i])
      ensures TransformLine(crypto, [Encode], i, LinesOf(input)[i]) == Success(encoded[i])
    {
      EncryptedLine(crypto, values, i, LinesOf(input)[i], es[i]);
      EncodedTwice(crypto, i, es[i]);
      EncodedOnce(crypto, i, LinesOf(input)[i]);
    }
    TransformedAre(crypto, [Decrypt, Encode], out, encoded);
    TransformedAre(crypto, [Encode], input, encoded);
  }

  /** A line as the platform takes it: values in base64, unless the key says that they already are. */
  function EncodedLine(crypto: Crypto, line: Line): Line {
    match line
    case Passed(_) => line
    case Pair(key, val) =>
      if TrimSuffix(key, ".B64") != key then Pair(TrimSuffix(key, ".B64"), val) else Pair(key, crypto.base64(val))
  }

  lemma EncodedOnce(crypto: Crypto, n: nat, raw: string)
    ensures TransformLine(crypto, [Encode], n, raw) == Success(EncodedLine(crypto, ParseLine(raw)))
  {
    var line := ParseLine(raw);
    if line.Pair? { SingleConversion(crypto, Encode, n, line.key, line.val); }
  }

  lemma EncodedTwice(crypto: Crypto, n: nat, line: Line)
    requires Proper(line) && (line.Pair? ==> crypto.dec(line.val).ok)
    ensures TransformLine(crypto, [Decrypt, Encode], n, Render(line)) ==
            Success(EncodedLine(crypto, if line.Passed? then line else Pair(line.key, crypto.dec(line.val).text)))
  {
    ParseRendered(line);
    if line.Pair? {
      assert [Decrypt, Encode][1..] == [Encode];
      SingleConversion(crypto, Encode, n, line.key, crypto.dec(line.val).text);
    }
  }

  // ---- saving again ----

  /** A saved file: in normal form, with one line for every key, and with values that decrypt to proper ones. */
  ghost predicate Saved(crypto: Crypto, file: string) {
    var lines := Parsed(file);
    && Normal(file) == file
    && (forall i, j :: 0 <= i < j < |lines| && lines[i].Pair? && lines[j].Pair? ==> lines[i].key != lines[j].key)
    && (forall i :: 0 <= i < |lines| && lines[i].Pair? ==>
                      crypto.dec(lines[i].val).ok && ProperValue(crypto.dec(lines[i].val).text))
  }

  lemma {:induction false} UniqueValues(lines: seq<string>, i: nat)
    requires i < |lines| && ParseLine(lines[i]).Pair?
    requires forall j :: i < j < |lines| && ParseLine(lines[j]).Pair? ==>
                           ParseLine(lines[j]).key != ParseLine(lines[i]).key
    ensures ParseLine(lines[i]).key in Values(lines)
    ensures Values(lines)[ParseLine(lines[i]).key] == ParseLine(lines[i]).val
  {
    hide ParseLine;
    if i < |lines| - 1 { UniqueValues(lines[..|lines| - 1], i); }
  }

  /** The clear text of a saved file. */
  function ClearLine(crypto: Crypto, line: Line): Line {
    match line case Passed(_) => line case Pair(key, val) => Pair(key, crypto.dec(val).text)
  }

  function ClearLines(crypto: Crypto, lines: seq<Line>): (r: seq<Line>)
    ensures |r| == |lines| && forall i :: 0 <= i < |r| ==> r[i] == ClearLine(crypto, lines[i])
  {
    seq(|lines|, i requires 0 <= i < |lines| => ClearLine(crypto, lines[i]))
  }

  lemma DecryptedFile(crypto: Crypto, file: string)
    requires Saved(crypto, file)
    ensures Transformed(crypto, [Decrypt], file) == Success(Unlines(RenderAll(ClearLines(crypto, Parsed(file)))))
    ensures AllProperLines(ClearLines(crypto, Parsed(file)))
    ensures LinesOf(file) == RenderAll(Parsed(file))
  {
    hide TransformLine, LinesOf, Unlines, ParseLine, Render;
    ParsedAreProper(file);
    ParsedOfRendered(Parsed(file));
    var lines, clear := Parsed(file), ClearLines(crypto, Parsed(file));
    forall i | 0 <= i < |lines|
      ensures TransformLine(crypto, [Decrypt], i, LinesOf(file)[i]) == Success(clear[i]) && Proper(clear[i])
    {
      DecryptedLine(crypto, i, lines[i]);
    }
    TransformedAre(crypto, [Decrypt], file, clear);
  }

  /** A line of the clear text is encrypted to the line of the file it came from. */
  lemma SameLineAgain(crypto: Crypto, file: string, j: nat, n: nat, raw: string)
    requires Saved(crypto, file) && j < |Parsed(file)| && ParseLine(raw) == ClearLine(crypto, Parsed(file)[j])
    ensures TransformLine(crypto, Encrypting(file), n, raw) == Success(Parsed(file)[j])
  {
    hide LinesOf, Unlines, ParseLine, Render, Normal;
    var line := Parsed(file)[j];
    if line.Pair? {
      UniqueValues(LinesOf(file), j);
      SingleConversion(crypto, Encrypt(Values(LinesOf(file))), n, line.key, crypto.dec(line.val).text);
    }
  }

  /** Saving the clear text of a file unedited reproduces the file byte for byte. */
  lemma SavingAgain(crypto: Crypto, file: string, clear: string)
    requires Saved(crypto, file) && Transformed(crypto, [Decrypt], file) == Success(clear)
    ensures Transformed(crypto, Encrypting(file), clear) == Success(file)
  {
    hide TransformLine, LinesOf, Unlines, ParseLine, Render, Encrypting;
    DecryptedFile(crypto, file);
    ParsedOfRendered(ClearLines(crypto, Parsed(file)));
    forall i | 0 <= i < |Parsed(file)|
      ensures TransformLine(crypto, Encrypting(file), i, LinesOf(clear)[i]) == Success(Parsed(file)[i])
    {
      SameLineAgain(crypto, file, i, i, LinesOf(clear)[i]);
    }
    TransformedAre(crypto, Encrypting(file), clear, Parsed(file));
  }

  /** However the clear text is edited before it is saved: a line that still says what a line of the clear
      text said becomes, byte for byte, the line of the file which that one came from. */
  lemma EditsStayLocal(crypto: Crypto, file: string, clear: string, edited: string, out: string, i: nat, j: nat)
    requires Sound(crypto) && Saved(crypto, file) && Transformed(crypto, [Decrypt], file) == Success(clear)
    requires Transformed(crypto, Encrypting(file), edited) == Success(out)
    requires i < |Parsed(edited)| && j < |Parsed(clear)| && Parsed(edited)[i] == Parsed(clear)[j]
    ensures |LinesOf(out)| == |Parsed(edited)| && j < |LinesOf(file)| && LinesOf(out)[i] == LinesOf(file)[j]
  {
    hide TransformLine, LinesOf, Unlines, ParseLine, Render, Encrypting, Sound;
    DecryptedFile(crypto, file);
    ParsedOfRendered(ClearLines(crypto, Parsed(file)));
    var es := EncryptedLines(crypto, edited, file, out);
    SameLineAgain(crypto, file, j, i, LinesOf(edited)[i]);
  }
}
