/** The string helpers of the Go standard library that the modelled code relies on, and the search
    helpers of pkg/utils/string.go. */
module Text {
  /** strings.Replace(s, from, to, -1): every occurrence, left to right, without overlaps. */
  function ReplaceAll(s: string, from: string, to: string): string
    requires from != ""
  {
    if |s| < |from| then s
    else if from <= s then to + ReplaceAll(s[|from|..], from, to)
    else [s[0]] + ReplaceAll(s[1..], from, to)
  }

  /** strings.Split for a separator of one character. */
  function Split(s: string, sep: char): (parts: seq<string>)
    ensures parts != []
  {
    if s == "" then [""]
    else
      var rest := Split(s[1..], sep);
      if s[0] == sep then [""] + rest else [[s[0]] + rest[0]] + rest[1..]
  }

  lemma {:induction false} SplitWhole(s: string, sep: char)
    requires sep !in s
    ensures Split(s, sep) == [s]
  {
    if s != "" {
      SplitWhole(s[1..], sep);
      assert s == [s[0]] + s[1..];
    }
  }

  lemma {:induction false} SplitHead(s: string, sep: char, t: string)
    requires sep !in s
    ensures Split(s + [sep] + t, sep) == [s] + Split(t, sep)
  {
    var all := s + [sep] + t;
    if s == "" {
      assert all[1..] == t;
    } else {
      SplitHead(s[1..], sep, t);
      assert all[1..] == s[1..] + [sep] + t;
      assert s == [s[0]] + s[1..];
    }
  }

  /** No part contains the separator, and there is one part more than there are separators. */
  lemma {:induction false} SplitParts(s: string, sep: char)
    ensures forall i :: 0 <= i < |Split(s, sep)| ==> sep !in Split(s, sep)[i]
    ensures |Split(s, sep)| == multiset(s)[sep] + 1
  {
    if s != "" {
      SplitParts(s[1..], sep);
      var rest := Split(s[1..], sep);
      assert sep !in rest[0];
      assert s == [s[0]] + s[1..];
    }
  }

  /** The text without its first part, or the text itself when there is only one. */
  lemma {:induction false} SplitTail(s: string, sep: char) returns (t: string)
    ensures |Split(s, sep)| == 1 ==> Split(s, sep)[0] == s
    ensures |Split(s, sep)| > 1 ==> s == Split(s, sep)[0] + [sep] + t && Split(t, sep) == Split(s, sep)[1..]
  {
    if s == "" {
      t := "";
    } else {
      assert s == [s[0]] + s[1..];
      t := SplitTail(s[1..], sep);
      if s[0] == sep { t := s[1..]; }
    }
  }

  /** strings.ToLower, on the letters that occur in kinds and resource names. */
  function ToLower(s: string): string {
    if s == "" then ""
    else [if 'A' <= s[0] <= 'Z' then s[0] - 'A' + 'a' else s[0]] + ToLower(s[1..])
  }

  /** Upper-case letters become lower-case ones; every other character stays as it is. */
  lemma {:induction false} ToLowerMeans(s: string)
    ensures |ToLower(s)| == |s|
    ensures forall i :: 0 <= i < |s| ==>
                          ToLower(s)[i] == if 'A' <= s[i] <= 'Z' then (s[i] as int + 32) as char else s[i]
  {
    if s != "" { ToLowerMeans(s[1..]); }
  }

  /** unicode.IsSpace. */
  predicate IsSpace(c: char) {
    var x := c as int;
    || 0x09 <= x <= 0x0D || x == 0x20 || x == 0x85 || x == 0xA0 || x == 0x1680 || 0x2000 <= x <= 0x200A
    || x == 0x2028 || x == 0x2029 || x == 0x202F || x == 0x205F || x == 0x3000
  }

  function TrimLeft(s: string): string {
    if s != "" && IsSpace(s[0]) then TrimLeft(s[1..]) else s
  }

  function TrimRight(s: string): string {
    if s != "" && IsSpace(s[|s| - 1]) then TrimRight(s[..|s| - 1]) else s
  }

  /** strings.TrimSpace. */
  function TrimSpace(s: string): string {
    TrimRight(TrimLeft(s))
  }

  /** Some string of the haystack is a prefix of the needle. */
  predicate AnyPrefix(haystack: seq<string>, needle: string) {
    exists i :: 0 <= i < |haystack| && haystack[i] <= needle
  }

  lemma NothingIsPrefix(s: string)
    ensures !AnyPrefix([], s)
  {
  }

  method Includes(haystack: seq<string>, needle: string) returns (found: bool)
    ensures found <==> needle in haystack
  {
    for i := 0 to |haystack|
      invariant needle !in haystack[..i]
    {
      if haystack[i] == needle {
        return true;
      }
    }
    return false;
  }

  method IncludesPrefix(haystack: seq<string>, needle: string) returns (found: bool)
    ensures found <==> AnyPrefix(haystack, needle)
  {
    for i := 0 to |haystack|
      invariant forall j :: 0 <= j < i ==> !(haystack[j] <= needle)
    {
      if haystack[i] <= needle {
        return true;
      }
    }
    return false;
  }

  /** The list without the first occurrence of a value. */
  function WithoutFirst(s: seq<string>, val: string): seq<string> {
    if s == [] then []
    else if s[0] == val then s[1..]
    else [s[0]] + WithoutFirst(s[1..], val)
  }

  method Remove(s: seq<string>, val: string) returns (r: seq<string>)
    ensures r == WithoutFirst(s, val)
  {
    for i := 0 to |s|
      invariant val !in s[..i]
    {
      if s[i] == val {
        FirstGone(s, val, i);
        return s[..i] + s[i + 1..];
      }
    }
    NoneGone(s, val);
    return s;
  }

  lemma {:induction false} FirstGone(s: seq<string>, val: string, i: nat)
    requires i < |s| && s[i] == val && val !in s[..i]
    ensures WithoutFirst(s, val) == s[..i] + s[i + 1..]
  {
    if i > 0 {
      assert s[1..][..i - 1] == s[..i][1..] && s[..i][0] == s[0];
      FirstGone(s[1..], val, i - 1);
      assert s[..i] == [s[0]] + s[1..][..i - 1];
    }
  }

  lemma {:induction false} NoneGone(s: seq<string>, val: string)
    requires val !in s
    ensures WithoutFirst(s, val) == s
  {
    if s != [] { NoneGone(s[1..], val); }
  }
}
