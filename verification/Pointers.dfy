/** JSON pointers as strings: the escaping of pkg/utils/string.go, the walk's way of writing absolute
    pointers, and the reading of sections 3 and 4 of RFC 6901. The path lists of the tool hold these
    strings and are searched by raw string prefix. */
module Pointers {
  import opened Text
  import opened Documents

  /** utils.JSONPointerPath: escapes one reference token. */
  function JsonPointerPath(s: string): string {
    ReplaceAll(ReplaceAll(s, "~", "~0"), "/", "~1")
  }

  /** Section 4 of RFC 6901: ~1 is decoded first, then ~0. */
  function DecodeToken(s: string): string {
    ReplaceAll(ReplaceAll(s, "~1", "/"), "~0", "~")
  }

  /** Escaped tokens, each behind a slash. */
  function Join(p: Position): string {
    if p == [] then "" else "/" + JsonPointerPath(p[0]) + Join(p[1..])
  }

  /** The absolute pointer of a position, as the walk writes it. */
  function Enc(p: Position): string {
    Join(p)
  }

  function DecodeAll(tokens: seq<string>): Position {
    if tokens == [] then [] else [DecodeToken(tokens[0])] + DecodeAll(tokens[1..])
  }

  /** Reads a pointer. The tool ignores the error for a string that is neither empty nor starts with a
      slash, so such a string acts as the pointer to the whole document. */
  function Dec(s: string): Position {
    if s == "" || s[0] != '/' then [] else DecodeAll(Split(s[1..], '/'))
  }

  lemma EmptyPointer()
    ensures Dec("") == [] && Enc([]) == ""
  {
  }

  // ---- one token ----

  /** Escaping, character by character. */
  function EscChar(c: char): string {
    if c == '~' then "~0" else if c == '/' then "~1" else [c]
  }

  lemma {:induction false} ReplaceSkip(c: char, r: string, from: string, to: string)
    requires from != ""
    requires c != from[0] || (|from| > 1 && |r| > 0 && r[0] != from[1])
    ensures ReplaceAll([c] + r, from, to) == [c] + ReplaceAll(r, from, to)
  {
    var s := [c] + r;
    assert s[0] == c && s[1..] == r;
    assert r != "" ==> s[1] == r[0];
  }

  lemma {:induction false} ReplaceHit(r: string, from: string, to: string)
    requires from != ""
    ensures ReplaceAll(from + r, from, to) == to + ReplaceAll(r, from, to)
  {
    assert (from + r)[|from|..] == r;
  }

  lemma {:induction false} EscStep(s: string)
    requires s != ""
    ensures ReplaceAll(s, "~", "~0") == (if s[0] == '~' then "~0" else [s[0]]) + ReplaceAll(s[1..], "~", "~0")
    ensures JsonPointerPath(s) == EscChar(s[0]) + JsonPointerPath(s[1..])
  {
    var t := ReplaceAll(s[1..], "~", "~0");
    assert s == [s[0]] + s[1..];
    if s[0] == '~' {
      assert s == "~" + s[1..];
      ReplaceHit(s[1..], "~", "~0");
      assert "~0" + t == ['~'] + (['0'] + t);
      ReplaceSkip('0', t, "/", "~1");
      ReplaceSkip('~', ['0'] + t, "/", "~1");
      assert "~0" + ReplaceAll(t, "/", "~1") == ['~'] + (['0'] + ReplaceAll(t, "/", "~1"));
    } else {
      ReplaceSkip(s[0], s[1..], "~", "~0");
      if s[0] == '/' {
        assert [s[0]] + t == "/" + t;
        ReplaceHit(t, "/", "~1");
      } else {
        ReplaceSkip(s[0], t, "/", "~1");
      }
    }
  }

  lemma {:induction false} EscNoSlash(s: string)
    ensures '/' !in JsonPointerPath(s)
    ensures s != "" ==> JsonPointerPath(s) != ""
  {
    if s != "" {
      EscStep(s);
      EscNoSlash(s[1..]);
    }
  }

  lemma NothingToEscape()
    ensures JsonPointerPath("") == "" && forall from: string, to: string :: from != "" ==>
                                                                              ReplaceAll("", from, to) == ""
  {
  }

  /** Decoding "~1" leaves what the first escaping step had made of the token. */
  lemma {:induction false} DecodeSlashes(s: string)
    ensures ReplaceAll(JsonPointerPath(s), "~1", "/") == ReplaceAll(s, "~", "~0")
  {
    hide JsonPointerPath, ReplaceAll;
    if s == "" {
      NothingToEscape();
    } else {
      EscStep(s);
      DecodeSlashes(s[1..]);
      var r := JsonPointerPath(s[1..]);
      if s[0] == '~' {
        var t := ReplaceAll(r, "~1", "/");
        assert "~0" + r == ['~'] + (['0'] + r);
        ReplaceSkip('0', r, "~1", "/");
        ReplaceSkip('~', ['0'] + r, "~1", "/");
        assert ['~'] + (['0'] + t) == "~0" + t;
      } else if s[0] == '/' {
        ReplaceHit(r, "~1", "/");
      } else {
        ReplaceSkip(s[0], r, "~1", "/");
      }
    }
  }

  lemma {:induction false} DecodeTildes(s: string)
    ensures ReplaceAll(ReplaceAll(s, "~", "~0"), "~0", "~") == s
  {
    if s != "" {
      EscStep(s);
      DecodeTildes(s[1..]);
      var r := ReplaceAll(s[1..], "~", "~0");
      if s[0] == '~' {
        ReplaceHit(r, "~0", "~");
      } else {
        ReplaceSkip(s[0], r, "~0", "~");
      }
    }
  }

  /** The RFC's decoding order undoes the tool's escaping order. */
  lemma DecodeEscaped(s: string)
    ensures DecodeToken(JsonPointerPath(s)) == s
  {
    DecodeSlashes(s);
    DecodeTildes(s);
  }

  // ---- whole pointers ----

  /** The written form, cut behind its first slash. */
  lemma EncTail(p: Position)
    requires p != []
    ensures Enc(p) != "" && Enc(p)[0] == '/'
    ensures Enc(p)[1..] == JsonPointerPath(p[0]) + Enc(p[1..])
    ensures |p| == 1 ==> Enc(p)[1..] == JsonPointerPath(p[0])
    ensures |p| > 1 ==> Enc(p[1..]) != "" && Enc(p)[1..] == JsonPointerPath(p[0]) + ['/'] + Enc(p[1..])[1..]
  {
    hide JsonPointerPath;
    var e, rest := JsonPointerPath(p[0]), Enc(p[1..]);
    assert Enc(p) == "/" + e + rest;
    assert ("/" + e + rest)[1..] == e + rest;
    if |p| == 1 {
      assert p[1..] == [] && rest == "" && e + "" == e;
    } else {
      StartsWithSlash(p[1..]);
      assert rest == ['/'] + rest[1..];
      assert e + rest == e + ['/'] + rest[1..];
    }
  }

  lemma StartsWithSlash(p: Position)
    requires p != []
    ensures Enc(p) != "" && Enc(p)[0] == '/'
  {
    hide JsonPointerPath;
    assert ("/" + JsonPointerPath(p[0]) + Join(p[1..]))[0] == '/';
  }

  lemma {:induction false} SplitEnc(p: Position)
    requires p != []
    ensures Enc(p) != "" && Enc(p)[0] == '/'
    ensures DecodeAll(Split(Enc(p)[1..], '/')) == p
  {
    hide Enc, Split, JsonPointerPath, DecodeToken;
    var e := JsonPointerPath(p[0]);
    EncTail(p);
    EscNoSlash(p[0]);
    DecodeEscaped(p[0]);
    if |p| == 1 {
      SplitWhole(e, '/');
      DecodeOne(e, []);
      assert p == [p[0]] + [];
    } else {
      SplitEnc(p[1..]);
      var rest := Enc(p[1..]);
      SplitHead(e, '/', rest[1..]);
      DecodeOne(e, Split(rest[1..], '/'));
      assert p == [p[0]] + p[1..];
    }
  }

  lemma DecodeOne(token: string, tokens: seq<string>)
    ensures DecodeAll([token] + tokens) == [DecodeToken(token)] + DecodeAll(tokens)
  {
    hide DecodeToken;
    assert ([token] + tokens)[1..] == tokens;
  }

  /** Reading back a written pointer gives the position it was written for; so Enc is injective. */
  lemma DecEnc(p: Position)
    ensures Dec(Enc(p)) == p
  {
    if p != [] {
      SplitEnc(p);
    }
  }

  lemma {:induction false} EncConcat(p: Position, q: Position)
    ensures Enc(p + q) == Enc(p) + Enc(q)
  {
    hide JsonPointerPath, Enc;
    if p == [] {
      assert p + q == q;
      assert Enc([]) == "" by { EncStart([]); }
    } else {
      EncConcat(p[1..], q);
      assert (p + q)[1..] == p[1..] + q && (p + q)[0] == p[0];
      EncStep(p);
      EncStep(p + q);
      Regrouped("/" + JsonPointerPath(p[0]), Enc(p[1..]), Enc(q));
    }
  }

  lemma EncStep(p: Position)
    requires p != []
    ensures Enc(p) == "/" + JsonPointerPath(p[0]) + Enc(p[1..])
  {
    hide JsonPointerPath;
  }

  lemma Regrouped(a: string, b: string, c: string)
    ensures a + (b + c) == a + b + c
  {
  }

  lemma EncChild(p: Position, k: string)
    ensures Enc(p + [k]) == Enc(p) + "/" + JsonPointerPath(k)
  {
    EncConcat(p, [k]);
    assert [k][1..] == [] && Join([k][1..]) == "";
  }

  lemma EncPrefixOfDescendant(p: Position, q: Position)
    requires p <= q
    ensures Enc(p) <= Enc(q)
  {
    assert q == p + q[|p|..];
    EncConcat(p, q[|p|..]);
  }

  /** Comparing two strings by prefix, each cut at its first slash. */
  lemma HeadsAgree(a: string, u: string, b: string, v: string)
    requires '/' !in a && '/' !in b
    requires u == "" || u[0] == '/'
    requires v == "" || v[0] == '/'
    ensures u == "" ==> (a + u <= b + v <==> a <= b)
    ensures u != "" ==> (a + u <= b + v <==> a == b && u <= v)
  {
    var x, y := a + u, b + v;
    if x <= y {
      assert forall i :: 0 <= i < |a| ==> a[i] == x[i] && x[i] == y[i];
      assert v != "" ==> y[|b|] == '/';
      assert |a| <= |b|;
      assert forall i :: 0 <= i < |a| ==> b[i] == y[i];
      if u != "" {
        assert x[|a|] == '/' && y[|a|] == x[|a|];
        assert forall i :: 0 <= i < |b| ==> b[i] == y[i];
        assert |a| == |b|;
        assert u == x[|a|..] && v == y[|a|..];
      }
    }
  }

  lemma CutFirst(c: char, x: string, y: string)
    ensures [c] + x <= [c] + y <==> x <= y
  {
    assert ([c] + x)[1..] == x && ([c] + y)[1..] == y;
    if [c] + x <= [c] + y {
      assert forall i :: 0 <= i < |x| ==> x[i] == ([c] + x)[i + 1] && y[i] == ([c] + y)[i + 1];
    }
  }

  /** The pointer without its leading slash. */
  function EncRest(p: Position): (r: string)
    requires p != []
    ensures Enc(p) == ['/'] + r
  {
    JsonPointerPath(p[0]) + Enc(p[1..])
  }

  lemma EncStart(p: Position)
    ensures Enc(p) == "" <==> p == []
    ensures p != [] ==> Enc(p)[0] == '/'
  {
  }

  lemma PrefixStep(p: Position, q: Position)
    requires p != [] && q != []
    ensures |p| == 1 ==> (Enc(p) <= Enc(q) <==> JsonPointerPath(p[0]) <= JsonPointerPath(q[0]))
    ensures |p| > 1 ==> (Enc(p) <= Enc(q) <==> p[0] == q[0] && Enc(p[1..]) <= Enc(q[1..]))
  {
    CutFirst('/', EncRest(p), EncRest(q));
    EscNoSlash(p[0]);
    EscNoSlash(q[0]);
    EncStart(p[1..]);
    EncStart(q[1..]);
    HeadsAgree(JsonPointerPath(p[0]), Enc(p[1..]), JsonPointerPath(q[0]), Enc(q[1..]));
    DecodeEscaped(p[0]);
    DecodeEscaped(q[0]);
  }

  /** What the raw prefix test means on pointers: the same parent, and a last token whose escaped form is
      a prefix of the other token's escaped form. It means "same position or below" exactly when those
      two tokens are equal. */
  lemma {:induction false} PrefixMeaning(p: Position, q: Position)
    requires p != []
    ensures Enc(p) <= Enc(q) <==>
            |p| <= |q| && Parent(p) <= q && JsonPointerPath(p[|p| - 1]) <= JsonPointerPath(q[|p| - 1])
  {
    if q == [] {
      EncStart(p);
      EncStart(q);
    } else {
      PrefixStep(p, q);
      if |p| > 1 {
        PrefixMeaning(p[1..], q[1..]);
        ParentOfTail(p);
        assert Parent(p) <= q <==> p[0] == q[0] && Parent(p[1..]) <= q[1..];
        assert |q| >= |p| ==> q[1..][|p| - 2] == q[|p| - 1];
      }
    }
  }
}
