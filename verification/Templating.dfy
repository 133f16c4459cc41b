/** Namespaces in exported templates (ExportAsTemplateFile in pkg/openshift/export.go). */
module Templating {
  import opened Text

  /** The placeholder which processing a template replaces by the namespace. */
  const TOKEN := "${TAILOR_NAMESPACE}"

  /** The characters that word boundaries in regular expressions are about. */
  predicate IsWord(c: char) {
    '0' <= c <= '9' || 'A' <= c <= 'Z' || 'a' <= c <= 'z' || c == '_'
  }

  predicate IsNamespaceChar(c: char) {
    '0' <= c <= '9' || 'a' <= c <= 'z' || c == '-'
  }

  /** The names that a namespace can have. */
  predicate IsNamespace(s: string) {
    && s != "" && (forall c :: c in s ==> IsNamespaceChar(c))
    && s[0] != '-' && s[|s| - 1] != '-'
  }

  /** The namespace, between word boundaries, stands at the beginning of s. */
  predicate StartsWith(namespace: string, afterWord: bool, s: string)
    requires namespace != ""
  {
    && namespace <= s
    && afterWord != IsWord(s[0])
    && IsWord(namespace[|namespace| - 1]) != (|namespace| < |s| && IsWord(s[|namespace|]))
  }

  /** The match consists of the namespace and the character after it, if there is one on the same line. */
  function MatchLength(namespace: string, s: string): nat {
    if |namespace| < |s| && s[|namespace|] != '\n' then |namespace| + 1 else |namespace|
  }

  /** Replaces the namespace by the placeholder, left to right; not where a hyphen follows it. afterWord
      says whether the character before s belongs to a word. */
  function Rewrite(namespace: string, afterWord: bool, s: string): string
    requires namespace != ""
    decreases |s|
  {
    if s == "" then ""
    else if StartsWith(namespace, afterWord, s) then
      var n := MatchLength(namespace, s);
      var found := s[..n];
      (if found[n - 1] == '-' then found else ReplaceAll(found, namespace, TOKEN))
      + Rewrite(namespace, IsWord(s[n - 1]), s[n..])
    else [s[0]] + Rewrite(namespace, IsWord(s[0]), s[1..])
  }

  /** The text of an export with placeholders. */
  function Templated(namespace: string, text: string): string
    requires namespace != ""
  {
    Rewrite(namespace, false, text)
  }

  // ---- the placeholder ----

  /** The placeholder stands somewhere in s. */
  predicate HasToken(s: string) {
    s != "" && (TOKEN <= s || HasToken(s[1..]))
  }

  lemma TokenChars(k: nat)
    requires k < |TOKEN|
    ensures !IsNamespaceChar(TOKEN[k]) && (TOKEN[k] == '$' <==> k == 0)
  {
  }

  /** Nothing in a begins a match of the namespace. */
  lemma {:induction false} RewriteSkips(namespace: string, afterWord: bool, a: string, b: string)
    requires IsNamespace(namespace) && a != "" && forall i :: 0 <= i < |a| ==> !IsNamespaceChar(a[i])
    ensures Rewrite(namespace, afterWord, a + b) == a + Rewrite(namespace, IsWord(a[|a| - 1]), b)
    decreases |a|
  {
    hide Rewrite, StartsWith, IsWord, IsNamespaceChar;
    var s := a + b;
    assert s[0] == a[0] && s[1..] == a[1..] + b;
    NoMatchHere(namespace, afterWord, s);
    CopyStep(namespace, afterWord, s);
    if |a| == 1 {
      assert s[1..] == b && a == [s[0]];
    } else {
      RewriteSkips(namespace, IsWord(a[0]), a[1..], b);
      Prepend(a, Rewrite(namespace, IsWord(a[|a| - 1]), b));
    }
  }

  lemma NoMatchHere(namespace: string, afterWord: bool, s: string)
    requires IsNamespace(namespace) && s != "" && !IsNamespaceChar(s[0])
    ensures !StartsWith(namespace, afterWord, s)
  {
    hide IsNamespaceChar;
    assert IsNamespaceChar(namespace[0]);
  }

  lemma Prepend(a: string, b: string)
    requires a != ""
    ensures [a[0]] + (a[1..] + b) == a + b
  {
  }

  /** A rewritten text goes on like the rest of a placeholder only if the text itself does. */
  lemma {:induction false} TailSurvives(namespace: string, afterWord: bool, s: string, k: nat)
    requires IsNamespace(namespace) && 0 < k <= |TOKEN| && TOKEN[k..] <= Rewrite(namespace, afterWord, s)
    ensures TOKEN[k..] <= s
    decreases |TOKEN| - k
  {
    hide Rewrite, StartsWith, IsWord, IsNamespaceChar;
    if k < |TOKEN| {
      TokenChars(k);
      var out := Rewrite(namespace, afterWord, s);
      assert out[0] == TOKEN[k];
      NotRewrittenToNothing(namespace, afterWord, s);
      FirstChar(namespace, afterWord, s);
      CopyStep(namespace, afterWord, s);
      assert out[1..] == Rewrite(namespace, IsWord(s[0]), s[1..]);
      assert TOKEN[k..][1..] == TOKEN[k + 1..];
      TailSurvives(namespace, IsWord(s[0]), s[1..], k + 1);
      SameHead(TOKEN[k..], s);
    }
  }

  lemma NotRewrittenToNothing(namespace: string, afterWord: bool, s: string)
    requires namespace != ""
    ensures s == "" ==> Rewrite(namespace, afterWord, s) == ""
  {
  }

  lemma SameHead(a: string, s: string)
    requires a != "" && s != "" && a[0] == s[0] && a[1..] <= s[1..]
    ensures a <= s
  {
    assert a == [a[0]] + a[1..] && s == [s[0]] + s[1..];
  }

  /** Where the namespace is matched, the rewritten text begins with it or with the placeholder. */
  lemma FirstChar(namespace: string, afterWord: bool, s: string)
    requires IsNamespace(namespace) && s != ""
    ensures Rewrite(namespace, afterWord, s) != ""
    ensures StartsWith(namespace, afterWord, s) ==>
              IsNamespaceChar(Rewrite(namespace, afterWord, s)[0]) || Rewrite(namespace, afterWord, s)[0] == '$'
  {
    if StartsWith(namespace, afterWord, s) { MatchBecomes(namespace, afterWord, s); }
  }

  /** What the rewriting makes of a match. */
  lemma MatchBecomes(namespace: string, afterWord: bool, s: string)
    requires IsNamespace(namespace) && StartsWith(namespace, afterWord, s)
    ensures var n := MatchLength(namespace, s);
            && |namespace| <= n <= |s|
            && Rewrite(namespace, afterWord, s) ==
               (if n > |namespace| && s[n - 1] == '-' then s[..n] else TOKEN + s[|namespace|..n])
               + Rewrite(namespace, IsWord(s[n - 1]), s[n..])
  {
    var n := MatchLength(namespace, s);
    var c := s[|namespace|..n];
    EndsAreWords(namespace);
    assert s[..n] == namespace + c;
    assert c != "" ==> c[0] == s[|namespace|] == s[n - 1];
    ReplaceMatch(namespace, c);
  }

  lemma ReplaceMatch(namespace: string, c: string)
    requires namespace != "" && |c| <= 1 && (c != "" ==> namespace[0] != c[0])
    ensures ReplaceAll(namespace + c, namespace, TOKEN) == TOKEN + c
  {
    assert (namespace + c)[|namespace|..] == c;
    if c != "" { ShortText(c, namespace); }
  }

  lemma EndsAreWords(namespace: string)
    requires IsNamespace(namespace)
    ensures IsWord(namespace[0]) && IsWord(namespace[|namespace| - 1])
  {
    assert IsNamespaceChar(namespace[0]) && IsNamespaceChar(namespace[|namespace| - 1]);
  }

  lemma ShortText(c: string, namespace: string)
    requires namespace != "" && |c| == 1 && namespace[0] != c[0]
    ensures ReplaceAll(c, namespace, TOKEN) == c
  {
    assert c == [c[0]] && c[1..] == "";
    assert !(namespace <= c);
  }

  lemma CopyStep(namespace: string, afterWord: bool, s: string)
    requires namespace != "" && s != "" && !StartsWith(namespace, afterWord, s)
    ensures Rewrite(namespace, afterWord, s) == [s[0]] + Rewrite(namespace, IsWord(s[0]), s[1..])
  {
  }

  // ---- which names are replaced ----

  predicate WordBefore(s: string, k: nat)
    requires k <= |s|
  {
    k > 0 && IsWord(s[k - 1])
  }

  /** The namespace, between word boundaries, stands at position k of s. */
  predicate MatchesAt(namespace: string, s: string, k: nat)
    requires namespace != "" && k <= |s|
  {
    StartsWith(namespace, WordBefore(s, k), s[k..])
  }

  /** No match before k reaches over k. Matches are found from left to right. */
  ghost predicate NotCovered(namespace: string, s: string, k: nat)
    requires namespace != "" && k <= |s|
    decreases k, 0
  {
    forall j :: 0 <= j < k && Matched(namespace, s, j) ==> j + MatchLength(namespace, s[j..]) <= k
  }

  ghost predicate Matched(namespace: string, s: string, k: nat)
    requires namespace != "" && k <= |s|
    decreases k, 1
  {
    MatchesAt(namespace, s, k) && NotCovered(namespace, s, k)
  }

  /** The name is at position k of s, neither part of a longer word nor followed by a hyphen. */
  predicate StandsAlone(namespace: string, s: string, k: nat)
    requires k <= |s|
  {
    && namespace <= s[k..] && !WordBefore(s, k)
    && var after := s[k..][|namespace|..]; after == "" || (!IsWord(after[0]) && after[0] != '-')
  }

  ghost predicate Replaced(namespace: string, s: string, k: nat)
    requires namespace != "" && k <= |s|
  {
    StandsAlone(namespace, s, k) && NotCovered(namespace, s, k)
  }

  /** The text from position k on, with the placeholder for every name that is replaced. */
  ghost function WithPlaceholders(namespace: string, s: string, k: nat): string
    requires namespace != "" && k <= |s|
    decreases |s| - k
  {
    if k == |s| then ""
    else if Replaced(namespace, s, k) then TOKEN + WithPlaceholders(namespace, s, k + |namespace|)
    else [s[k]] + WithPlaceholders(namespace, s, k + 1)
  }

  lemma MatchesUnlessHyphen(namespace: string, s: string, k: nat)
    requires IsNamespace(namespace) && k <= |s|
    ensures StandsAlone(namespace, s, k) <==>
            && MatchesAt(namespace, s, k)
            && (k + |namespace| < |s| ==> s[k + |namespace|] != '-')
    ensures MatchesAt(namespace, s, k) ==> k < |s| && namespace <= s[k..] && !WordBefore(s, k)
  {
    EndsAreWords(namespace);
  }

  /** A stretch in which nothing is replaced. */
  lemma {:induction false} CopiedRun(namespace: string, s: string, k: nat, end: nat)
    requires namespace != "" && k <= end <= |s| && forall j :: k <= j < end ==> !Replaced(namespace, s, j)
    ensures WithPlaceholders(namespace, s, k) == s[k..end] + WithPlaceholders(namespace, s, end)
    decreases end - k
  {
    hide Replaced, WithPlaceholders;
    var rest := WithPlaceholders(namespace, s, end);
    if k < end {
      CopiedRun(namespace, s, k + 1, end);
      CopiedHere(namespace, s, k);
      assert [s[k]] + (s[k + 1..end] + rest) == s[k..end] + rest;
    } else {
      assert s[k..end] + rest == rest;
    }
  }

  lemma CopiedHere(namespace: string, s: string, k: nat)
    requires namespace != "" && k < |s| && !Replaced(namespace, s, k)
    ensures WithPlaceholders(namespace, s, k) == [s[k]] + WithPlaceholders(namespace, s, k + 1)
  {
  }

  /** After a match at k, the next one is looked for behind it. */
  lemma AfterMatch(namespace: string, s: string, k: nat)
    requires IsNamespace(namespace) && k <= |s| && Matched(namespace, s, k)
    ensures var end := k + MatchLength(namespace, s[k..]);
            && k + |namespace| <= end <= |s| && end <= k + |namespace| + 1 && NotCovered(namespace, s, end)
            && (forall j :: k < j < end ==> !Replaced(namespace, s, j))
    ensures forall j :: 0 <= j < |s[k..]| ==> s[k..][j] == s[k + j]
  {
    hide StartsWith, StandsAlone, Matched;
    MatchedIs(namespace, s, k);
    StartsWithIt(namespace, WordBefore(s, k), s[k..]);
    var end := k + MatchLength(namespace, s[k..]);
    forall j | k < j < end ensures !NotCovered(namespace, s, j) {
      assert Matched(namespace, s, k);
    }
    forall j | 0 <= j < end && Matched(namespace, s, j) ensures j + MatchLength(namespace, s[j..]) <= end {
      MatchedIs(namespace, s, j);
    }
  }

  lemma MatchedIs(namespace: string, s: string, k: nat)
    requires namespace != "" && k <= |s| && Matched(namespace, s, k)
    ensures MatchesAt(namespace, s, k) && NotCovered(namespace, s, k)
  {
  }

  /** The rewriting, from a position on at which it looks for a match. */
  lemma {:induction false} RewriteFrom(namespace: string, s: string, k: nat)
    requires IsNamespace(namespace) && k <= |s| && NotCovered(namespace, s, k)
    ensures Rewrite(namespace, WordBefore(s, k), s[k..]) == WithPlaceholders(namespace, s, k)
    decreases |s| - k
  {
    hide Rewrite, WithPlaceholders, NotCovered, IsWord, IsNamespaceChar, StartsWith, MatchLength, Replaced;
    if k == |s| {
      AtTheEnd(namespace, s);
    } else if MatchesAt(namespace, s, k) {
      AfterMatch(namespace, s, k);
      RewriteFrom(namespace, s, k + MatchLength(namespace, s[k..]));
      RewriteMatch(namespace, s, k);
    } else {
      NextIsNotCovered(namespace, s, k);
      RewriteFrom(namespace, s, k + 1);
      RewriteCopy(namespace, s, k);
    }
  }

  lemma RewriteMatch(namespace: string, s: string, k: nat)
    requires IsNamespace(namespace) && k < |s| && Matched(namespace, s, k)
    requires var end := k + MatchLength(namespace, s[k..]);
             end <= |s| && Rewrite(namespace, WordBefore(s, end), s[end..]) == WithPlaceholders(namespace, s, end)
    ensures Rewrite(namespace, WordBefore(s, k), s[k..]) == WithPlaceholders(namespace, s, k)
  {
    hide Rewrite, WithPlaceholders, NotCovered, IsWord, IsNamespaceChar, StartsWith, MatchLength, Replaced;
    var end := k + MatchLength(namespace, s[k..]);
    AfterMatch(namespace, s, k);
    MatchBecomes(namespace, WordBefore(s, k), s[k..]);
    assert s[k..][end - k..] == s[end..] && s[k..][..end - k] == s[k..end];
    assert s[k..][|namespace|..end - k] == s[k + |namespace|..end];
    MatchWithPlaceholder(namespace, s, k);
  }

  lemma RewriteCopy(namespace: string, s: string, k: nat)
    requires IsNamespace(namespace) && k < |s| && !MatchesAt(namespace, s, k)
    requires Rewrite(namespace, WordBefore(s, k + 1), s[k + 1..]) == WithPlaceholders(namespace, s, k + 1)
    ensures Rewrite(namespace, WordBefore(s, k), s[k..]) == WithPlaceholders(namespace, s, k)
  {
    hide Rewrite, WithPlaceholders, NotCovered, IsWord, IsNamespaceChar, StartsWith, Replaced;
    CopyStep(namespace, WordBefore(s, k), s[k..]);
    assert s[k..][1..] == s[k + 1..] && s[k..][0] == s[k];
    NotReplaced(namespace, s, k);
  }

  lemma AtTheEnd(namespace: string, s: string)
    requires namespace != ""
    ensures forall afterWord :: Rewrite(namespace, afterWord, s[|s|..]) == WithPlaceholders(namespace, s, |s|)
  {
  }

  lemma NextIsNotCovered(namespace: string, s: string, k: nat)
    requires namespace != "" && k < |s| && NotCovered(namespace, s, k) && !MatchesAt(namespace, s, k)
    ensures NotCovered(namespace, s, k + 1)
  {
    hide StartsWith, MatchLength;
  }

  lemma NotReplaced(namespace: string, s: string, k: nat)
    requires IsNamespace(namespace) && k < |s| && !MatchesAt(namespace, s, k)
    ensures WithPlaceholders(namespace, s, k) == [s[k]] + WithPlaceholders(namespace, s, k + 1)
  {
    MatchesUnlessHyphen(namespace, s, k);
  }

  /** What a match becomes. */
  lemma MatchWithPlaceholder(namespace: string, s: string, k: nat)
    requires IsNamespace(namespace) && k < |s| && Matched(namespace, s, k)
    ensures var end := k + MatchLength(namespace, s[k..]);
            && k + |namespace| <= end <= |s|
            && WithPlaceholders(namespace, s, k) ==
               (if end > k + |namespace| && s[end - 1] == '-' then s[k..end] else TOKEN + s[k + |namespace|..end])
               + WithPlaceholders(namespace, s, end)
  {
    hide StartsWith, StandsAlone, WithPlaceholders, NotCovered, IsWord;
    AfterMatch(namespace, s, k);
    MatchesUnlessHyphen(namespace, s, k);
    var end := k + MatchLength(namespace, s[k..]);
    if end > k + |namespace| && s[end - 1] == '-' {
      CopiedRun(namespace, s, k, end);
    } else {
      assert Replaced(namespace, s, k);
      CopiedRun(namespace, s, k + |namespace|, end);
      PlaceholderHere(namespace, s, k);
    }
  }

  lemma PlaceholderHere(namespace: string, s: string, k: nat)
    requires namespace != "" && k < |s| && Replaced(namespace, s, k)
    ensures k + |namespace| <= |s|
    ensures WithPlaceholders(namespace, s, k) == TOKEN + WithPlaceholders(namespace, s, k + |namespace|)
  {
  }

  /** Which names are replaced, in any text: exactly those that stand alone and that no earlier match reaches
      over. Everything else is copied. */
  lemma NamesStandingAloneAreReplaced(namespace: string, text: string)
    requires IsNamespace(namespace)
    ensures Templated(namespace, text) == WithPlaceholders(namespace, text, 0)
  {
    RewriteFrom(namespace, text, 0);
  }

  // ---- names that overlap ----

  /** The name, shifted by d behind one of its hyphens, goes on like the name itself up to another hyphen. */
  predicate OverlapsItself(namespace: string, d: nat) {
    0 < d < |namespace| && namespace[d - 1] == '-' && namespace[d..] + "-" <= namespace
  }

  /** A name that stands alone is left out only where a match overlaps it that such a shift makes possible. */
  lemma CoveredOverlaps(namespace: string, text: string, k: nat)
    requires IsNamespace(namespace) && k <= |text| && StandsAlone(namespace, text, k) && !NotCovered(namespace, text, k)
    ensures exists d :: OverlapsItself(namespace, d)
  {
    hide StandsAlone, StartsWith, IsWord, NotCovered;
    var j := CoveringMatch(namespace, text, k);
    AfterMatch(namespace, text, j);
    MatchedIs(namespace, text, j);
    MatchesUnlessHyphen(namespace, text, j);
    MatchesUnlessHyphen(namespace, text, k);
    var d := k - j;
    Occurs(namespace, text, j);
    Occurs(namespace, text, k);
    BeforeName(namespace, text, j, k);
    AfterName(namespace, text, j, k);
    forall i | 0 <= i < |namespace| - d ensures namespace[d..][i] == namespace[i] {
      assert text[k + i] == namespace[i] && text[j + (d + i)] == namespace[d + i];
    }
    assert namespace[d..] + "-" <= namespace;
    assert OverlapsItself(namespace, d);
  }

  lemma CoveringMatch(namespace: string, s: string, k: nat) returns (j: nat)
    requires namespace != "" && k <= |s| && !NotCovered(namespace, s, k)
    ensures j < k && Matched(namespace, s, j) && j + MatchLength(namespace, s[j..]) > k
  {
    hide Matched, MatchLength;
    j :| 0 <= j < k && Matched(namespace, s, j) && j + MatchLength(namespace, s[j..]) > k;
  }

  lemma Occurs(namespace: string, s: string, k: nat)
    requires k <= |s| && namespace <= s[k..]
    ensures k + |namespace| <= |s| && forall i :: 0 <= i < |namespace| ==> s[k + i] == namespace[i]
  {
    forall i | 0 <= i < |namespace| ensures s[k + i] == namespace[i] { assert s[k..][i] == s[k + i]; }
  }

  lemma BeforeName(namespace: string, s: string, j: nat, k: nat)
    requires IsNamespace(namespace) && j < k <= j + |namespace| <= |s| && !WordBefore(s, k)
    requires forall i :: 0 <= i < |namespace| ==> s[j + i] == namespace[i]
    ensures k - j < |namespace| && namespace[k - j - 1] == '-'
  {
    var c := namespace[k - j - 1];
    assert s[j + (k - j - 1)] == c && c in namespace && IsNamespaceChar(c);
    EndsAreWords(namespace);
  }

  lemma AfterName(namespace: string, s: string, j: nat, k: nat)
    requires IsNamespace(namespace) && j < k && k - j < |namespace| && k + |namespace| <= |s|
    requires MatchesAt(namespace, s, j)
    requires forall i :: 0 <= i < |namespace| ==> s[k + i] == namespace[i]
    ensures namespace[|namespace| - (k - j)] == '-'
  {
    var c := namespace[|namespace| - (k - j)];
    assert c in namespace && IsNamespaceChar(c);
    EndsAreWords(namespace);
    assert s[j..][|namespace|] == s[k + (|namespace| - (k - j))] == c;
  }

  /** Every such shift leaves a name out of some text. */
  lemma OverlapIsCovered(namespace: string, d: nat) returns (text: string)
    requires IsNamespace(namespace) && OverlapsItself(namespace, d)
    ensures d <= |text| && StandsAlone(namespace, text, d) && !NotCovered(namespace, text, d)
  {
    hide IsWord, IsNamespace, MatchLength;
    var n := |namespace|;
    text := namespace + namespace[n - d..];
    OverlappingText(namespace, d);
    HyphenIsNoWord();
    EndsAreWords(namespace);
    assert text[0..] == text;
    assert Matched(namespace, text, 0);
    assert text[n] == '-' && MatchLength(namespace, text) == n + 1 by { HyphenIsTaken(namespace, text); }
  }

  /** The name once, and from position d on once more. */
  lemma OverlappingText(namespace: string, d: nat)
    requires OverlapsItself(namespace, d)
    ensures var text, n := namespace + namespace[|namespace| - d..], |namespace|;
            && text[d..] == namespace && namespace <= text && |text| > n && text[n] == '-' && text[d - 1] == '-'
  {
    var n := |namespace|;
    var text := namespace + namespace[n - d..];
    var shifted := namespace[d..] + "-";
    assert shifted[n - d] == namespace[n - d] == '-';
    assert namespace[..n - d] == shifted[..n - d] == namespace[d..];
    assert text[d..] == namespace[d..] + namespace[n - d..];
    assert namespace == namespace[..n - d] + namespace[n - d..];
  }

  lemma HyphenIsTaken(namespace: string, text: string)
    requires |text| > |namespace| && text[|namespace|] == '-'
    ensures MatchLength(namespace, text) == |namespace| + 1
  {
  }

  lemma HyphenIsNoWord()
    ensures !IsWord('-')
  {
  }

  /** All names standing alone are replaced, in all texts, exactly when the namespace cannot overlap itself. */
  lemma AllNamesAreReplacedExactlyIf(namespace: string)
    requires IsNamespace(namespace)
    ensures (forall text: string, k: nat :: k <= |text| && StandsAlone(namespace, text, k) ==>
                                              Replaced(namespace, text, k))
       <==> !exists d :: OverlapsItself(namespace, d)
  {
    hide StandsAlone, NotCovered, OverlapsItself;
    if d :| OverlapsItself(namespace, d) {
      var text := OverlapIsCovered(namespace, d);
      assert !Replaced(namespace, text, d);
    } else {
      forall text: string, k: nat | k <= |text| && StandsAlone(namespace, text, k)
        ensures Replaced(namespace, text, k)
      {
        if !NotCovered(namespace, text, k) { CoveredOverlaps(namespace, text, k); }
      }
    }
  }

  /** The name a-a in the text a-a-a: the first one is followed by a hyphen, the second one stands alone, and
      the text is left as it is. */
  lemma NameLeftOut()
    ensures IsNamespace("a-a") && StandsAlone("a-a", "a-a-a", 2) && Templated("a-a", "a-a-a") == "a-a-a"
  {
    hide Rewrite;
    var text := "a-a-a";
    assert text[0..] == text && text[4..] == "a" && text[2..] == "a-a" && text[3..] == "-a" && text[1..] == "-a-a";
    assert MatchesAt("a-a", text, 0);
    MatchBecomes("a-a", false, text);
    assert text[..4] == "a-a-" && "a-a-" + "a" == text;
    assert !StartsWith("a-a", false, "a");
    CopyStep("a-a", false, "a");
    EmptyIsRestored("a-a");
    assert "a"[1..] == "";
    assert ['a'] + "" == "a";
  }

  // ---- the way back ----

  function Back(namespace: string, s: string): string {
    ReplaceAll(s, TOKEN, namespace)
  }

  lemma BackToken(namespace: string, b: string)
    ensures Back(namespace, TOKEN + b) == namespace + Back(namespace, b)
  {
    assert (TOKEN + b)[|TOKEN|..] == b;
  }

  lemma {:induction false} BackSkips(namespace: string, a: string, b: string)
    requires '$' !in a
    ensures Back(namespace, a + b) == a + Back(namespace, b)
  {
    if a == "" {
      assert a + b == b;
    } else {
      BackSkips(namespace, a[1..], b);
      assert a[0] != TOKEN[0];
      BackChar(namespace, a[0], a[1..] + b);
      assert a + b == [a[0]] + (a[1..] + b) && a == [a[0]] + a[1..];
    }
  }

  lemma BackChar(namespace: string, c: char, b: string)
    requires !(TOKEN <= [c] + b)
    ensures Back(namespace, [c] + b) == [c] + Back(namespace, b)
  {
    var s := [c] + b;
    assert s[1..] == b && s[0] == c;
    if |s| < |TOKEN| { assert Back(namespace, b) == b; }
  }

  /** A copied character, and what follows it. */
  lemma CopiedChar(namespace: string, c: char, rest: string)
    requires IsNamespace(namespace)
    ensures var out := Back(namespace, [c] + Rewrite(namespace, IsWord(c), rest));
            if TOKEN <= [c] + rest then out ==
                                        namespace + Back(namespace, Rewrite(namespace, false, rest[|TOKEN| - 1..]))
            else out == [c] + Back(namespace, Rewrite(namespace, IsWord(c), rest))
  {
    hide Rewrite, Back;
    assert ([c] + rest)[0] == c && TOKEN[0] == '$';
    if TOKEN <= [c] + rest {
      CopiedToken(namespace, rest);
    } else {
      NoNewToken(namespace, c, rest);
      BackChar(namespace, c, Rewrite(namespace, IsWord(c), rest));
    }
  }

  lemma CopiedToken(namespace: string, rest: string)
    requires IsNamespace(namespace) && TOKEN <= ['$'] + rest
    ensures |rest| >= |TOKEN| - 1
    ensures Back(namespace, ['$'] + Rewrite(namespace, IsWord('$'), rest)) ==
            namespace + Back(namespace, Rewrite(namespace, false, rest[|TOKEN| - 1..]))
  {
    hide Rewrite, Back;
    var more := rest[|TOKEN| - 1..];
    assert TOKEN[1..] == (['$'] + rest)[1..|TOKEN|];
    assert rest == TOKEN[1..] + more;
    forall i | 0 <= i < |TOKEN[1..]| ensures !IsNamespaceChar(TOKEN[1..][i]) { TokenChars(i + 1); }
    RewriteSkips(namespace, IsWord('$'), TOKEN[1..], more);
    assert ['$'] + (TOKEN[1..] + Rewrite(namespace, false, more)) == TOKEN + Rewrite(namespace, false, more);
    BackToken(namespace, Rewrite(namespace, false, more));
  }

  lemma NoNewToken(namespace: string, c: char, rest: string)
    requires IsNamespace(namespace)
    ensures TOKEN <= [c] + Rewrite(namespace, IsWord(c), rest) ==> TOKEN <= [c] + rest
  {
    hide Rewrite;
    var r := Rewrite(namespace, IsWord(c), rest);
    if TOKEN <= [c] + r {
      assert c == TOKEN[0] && TOKEN[1..] == ([c] + r)[1..|TOKEN|] && ([c] + r)[1..] == r;
      assert TOKEN[1..] <= r;
      TailSurvives(namespace, IsWord(c), rest, 1);
      assert TOKEN == [c] + TOKEN[1..];
    }
  }

  function Dollars(s: string): nat {
    if s == "" then 0 else (if s[0] == '$' then 1 else 0) + Dollars(s[1..])
  }

  lemma {:induction false} DollarsConcat(a: string, b: string)
    ensures Dollars(a + b) == Dollars(a) + Dollars(b)
  {
    if a == "" {
      assert a + b == b;
    } else {
      DollarsConcat(a[1..], b);
      assert (a + b)[1..] == a[1..] + b;
    }
  }

  lemma {:induction false} NoDollars(s: string)
    requires '$' !in s
    ensures Dollars(s) == 0
  {
    if s != "" { NoDollars(s[1..]); }
  }

  lemma {:induction false} HasTokenAfter(a: string, b: string)
    requires '$' !in a
    ensures HasToken(a + b) <==> HasToken(b)
  {
    if a == "" {
      assert a + b == b;
    } else {
      HasTokenAfter(a[1..], b);
      assert (a + b)[1..] == a[1..] + b && (a + b)[0] == a[0];
    }
  }

  /** s was given back, or, where it has the placeholder itself, something with fewer dollar signs. */
  ghost predicate Restored(back: string, s: string) {
    if HasToken(s) then Dollars(back) < Dollars(s) else back == s
  }

  lemma RestoredAfter(a: string, back: string, s: string)
    requires '$' !in a && Restored(back, s)
    ensures Restored(a + back, a + s)
  {
    hide Dollars, HasToken;
    HasTokenAfter(a, s);
    DollarsConcat(a, back);
    DollarsConcat(a, s);
  }

  lemma FewerDollars(back: string, s: string)
    requires Restored(back, s)
    ensures Dollars(back) <= Dollars(s)
  {
  }

  lemma NamespaceHasNoDollar(namespace: string)
    requires IsNamespace(namespace)
    ensures '$' !in namespace
  {
  }

  lemma RestoredCopy(namespace: string, c: char, rest: string)
    requires IsNamespace(namespace)
    requires Restored(Back(namespace, Rewrite(namespace, IsWord(c), rest)), rest)
    requires TOKEN <= [c] + rest ==>
               Restored(Back(namespace, Rewrite(namespace, false, rest[|TOKEN| - 1..])), rest[|TOKEN| - 1..])
    ensures Restored(Back(namespace, [c] + Rewrite(namespace, IsWord(c), rest)), [c] + rest)
  {
    hide Rewrite, Back, Restored;
    CopiedChar(namespace, c, rest);
    if TOKEN <= [c] + rest {
      TokenGone(namespace, c, rest);
    } else {
      RestoredChar(c, Back(namespace, Rewrite(namespace, IsWord(c), rest)), rest);
    }
  }

  lemma RestoredChar(c: char, back: string, s: string)
    requires Restored(back, s) && !(TOKEN <= [c] + s)
    ensures Restored([c] + back, [c] + s)
  {
    assert ([c] + s)[1..] == s && ([c] + back)[1..] == back;
  }

  /** A placeholder in the text itself is replaced, too, and its dollar sign is gone. */
  lemma TokenGone(namespace: string, c: char, rest: string)
    requires IsNamespace(namespace) && TOKEN <= [c] + rest
    requires var more := rest[|TOKEN| - 1..]; Restored(Back(namespace, Rewrite(namespace, false, more)), more)
    ensures Restored(namespace + Back(namespace, Rewrite(namespace, false, rest[|TOKEN| - 1..])), [c] + rest)
  {
    hide Rewrite, Back;
    var more := rest[|TOKEN| - 1..];
    var back := Back(namespace, Rewrite(namespace, false, more));
    FewerDollars(back, more);
    NamespaceHasNoDollar(namespace);
    NoDollars(namespace);
    DollarsConcat(namespace, back);
    DollarsConcat(rest[..|TOKEN| - 1], more);
    assert ([c] + rest)[0] == c && TOKEN[0] == '$';
    assert rest == rest[..|TOKEN| - 1] + more && ([c] + rest)[1..] == rest;
  }

  lemma {:induction false} RewrittenIsRestored(namespace: string, afterWord: bool, s: string)
    requires IsNamespace(namespace)
    ensures Restored(Back(namespace, Rewrite(namespace, afterWord, s)), s)
    decreases |s|
  {
    hide Back, Restored, MatchLength, StartsWith, IsWord, Rewrite;
    if s == "" {
      EmptyIsRestored(namespace);
    } else if StartsWith(namespace, afterWord, s) {
      StartsWithIt(namespace, afterWord, s);
      var n := MatchLength(namespace, s);
      RewrittenIsRestored(namespace, IsWord(s[n - 1]), s[n..]);
      var c, rest := s[|namespace|..n], s[n..];
      if TOKEN <= c + rest && c != "" { RewrittenIsRestored(namespace, false, rest[|TOKEN| - 1..]); }
      RestoredMatch(namespace, afterWord, s);
    } else {
      var rest := s[1..];
      RewrittenIsRestored(namespace, IsWord(s[0]), rest);
      assert [s[0]] + rest == s;
      if TOKEN <= s { RewrittenIsRestored(namespace, false, rest[|TOKEN| - 1..]); }
      CopyStep(namespace, afterWord, s);
      RestoredCopy(namespace, s[0], rest);
    }
  }

  lemma RestoredMatch(namespace: string, afterWord: bool, s: string)
    requires IsNamespace(namespace) && StartsWith(namespace, afterWord, s)
    requires var n := MatchLength(namespace, s);
             && |namespace| <= n <= |s| && Restored(Back(namespace, Rewrite(namespace, IsWord(s[n - 1]), s[n..])),
                                                    s[n..])
             && (n > |namespace| && TOKEN <= s[|namespace|..n] + s[n..] ==>
                   Restored(Back(namespace, Rewrite(namespace, false, s[n..][|TOKEN| - 1..])), s[n..][|TOKEN| - 1..]))
    ensures Restored(Back(namespace, Rewrite(namespace, afterWord, s)), s)
  {
    hide Back, Restored, MatchLength, StartsWith, IsWord, Rewrite;
    MatchBecomes(namespace, afterWord, s);
    NamespaceHasNoDollar(namespace);
    StartsWithIt(namespace, afterWord, s);
    var n := MatchLength(namespace, s);
    var c, rest, r := s[|namespace|..n], s[n..], Rewrite(namespace, IsWord(s[n - 1]), s[n..]);
    if n > |namespace| && s[n - 1] == '-' {
      BackSkips(namespace, s[..n], r);
      RestoredAfter(s[..n], Back(namespace, r), rest);
      assert s == s[..n] + rest;
    } else {
      assert TOKEN + c + r == TOKEN + (c + r);
      BackToken(namespace, c + r);
      if n == |namespace| {
        assert c + r == r && c + rest == rest;
      } else {
        assert c == [s[n - 1]];
        RestoredCopy(namespace, s[n - 1], rest);
      }
      RestoredAfter(namespace, Back(namespace, c + r), c + rest);
      assert s == namespace + (c + rest);
    }
  }

  lemma EmptyIsRestored(namespace: string)
    requires namespace != ""
    ensures Restored(Back(namespace, ""), "") && Rewrite(namespace, true, "") == Rewrite(namespace, false, "") == ""
  {
  }

  lemma StartsWithIt(namespace: string, afterWord: bool, s: string)
    requires IsNamespace(namespace) && StartsWith(namespace, afterWord, s)
    ensures s[..|namespace|] == namespace
    ensures var n := MatchLength(namespace, s); |namespace| <= n <= |namespace| + 1 && n <= |s|
    ensures var n := MatchLength(namespace, s); n > |namespace| && s[n - 1] == '-' ==> '$' !in s[..n]
  {
    NamespaceHasNoDollar(namespace);
    var n := MatchLength(namespace, s);
    if n > |namespace| { assert s[..n] == namespace + [s[n - 1]]; }
  }

  /** Processing a template gives back the exported text, with the namespace in place of the placeholder,
      exactly when the text did not have the placeholder already. */
  lemma NamespaceRoundTrip(namespace: string, text: string)
    requires IsNamespace(namespace)
    ensures ReplaceAll(Templated(namespace, text), TOKEN, namespace) == text <==> !HasToken(text)
  {
    hide Rewrite, HasToken, Dollars, ReplaceAll;
    RewrittenIsRestored(namespace, false, text);
  }
}
