/** What a list of pointers must be to describe a document: the result of the tree walk of
    pkg/openshift/item.go, in any order of siblings that Go's map iteration may choose. */
module Walking {
  import opened Decimal
  import opened Documents
  import opened Pointers
  import opened Merging

  /** s is the written form of a position below base that j has, starting with one of the tokens ks. */
  predicate Listed(s: string, j: Json, base: Position, ks: set<string>) {
    s == Enc(Dec(s)) && base < Dec(s) && Dec(s)[|base|] in ks && Has(j, Dec(s)[|base|..])
  }

  ghost predicate AllListed(paths: seq<string>, j: Json, base: Position, ks: set<string>) {
    forall i :: 0 <= i < |paths| ==> Listed(paths[i], j, base, ks)
  }

  ghost predicate Complete(paths: seq<string>, j: Json, base: Position, ks: set<string>) {
    forall q {:trigger Has(j, q)} :: q != [] && q[0] in ks && Has(j, q) ==> Enc(base + q) in paths
  }

  ghost predicate Distinct(paths: seq<string>) {
    forall i, k :: 0 <= i < k < |paths| ==> paths[i] != paths[k]
  }

  /** Every proper ancestor of p below base is in the list. */
  ghost predicate AncestorsIn(p: Position, base: Position, paths: seq<string>) {
    forall n :: |base| < n < |p| ==> Enc(p[..n]) in paths
  }

  ghost predicate ParentsFirst(paths: seq<string>, base: Position) {
    forall i :: 0 <= i < |paths| ==> AncestorsIn(Dec(paths[i]), base, paths[..i])
  }

  /** paths lists exactly the positions of j that start with a token of ks, written below base, each
      once, and each after the positions above it. */
  ghost predicate WalkOfTokens(paths: seq<string>, j: Json, base: Position, ks: set<string>) {
    AllListed(paths, j, base, ks) && Complete(paths, j, base, ks) && Distinct(paths) && ParentsFirst(paths, base)
  }

  /** paths lists exactly the positions of j other than its root, written below base. */
  ghost predicate WalkBelow(paths: seq<string>, j: Json, base: Position) {
    WalkOfTokens(paths, j, base, Tokens(j))
  }

  ghost predicate IsWalk(paths: seq<string>, j: Json) {
    WalkBelow(paths, j, [])
  }

  lemma ListedBelowChild(s: string, j: Json, base: Position, k: string)
    requires HasChild(j, k)
    requires Listed(s, Child(j, k), base + [k], Tokens(Child(j, k)))
    ensures Listed(s, j, base, {k}) && s != Enc(base + [k])
    ensures forall paths, head: string :: AncestorsIn(Dec(s), base + [k], paths) && head == Enc(base + [k])
                                          ==> AncestorsIn(Dec(s), base, [head] + paths)
  {
    var q := Dec(s);
    assert q[|base|] == k && q[|base|..][1..] == q[|base| + 1..];
    assert Get(j, q[|base|..]) == Get(Child(j, k), q[|base| + 1..]);
    DecEnc(base + [k]);
    forall paths, head: string, n
      | AncestorsIn(q, base + [k], paths) && head == Enc(base + [k]) && |base| < n < |q|
      ensures Enc(q[..n]) in [head] + paths
    {
      if n == |base| + 1 { assert q[..n] == base + [k]; }
    }
  }

  /** The pointer of one child, followed by the walk of that child. */
  lemma WalkOfChild(paths: seq<string>, j: Json, base: Position, k: string)
    requires HasChild(j, k)
    requires WalkBelow(paths, Child(j, k), base + [k])
    ensures WalkOfTokens([Enc(base + [k])] + paths, j, base, {k})
  {
    ListedChild(paths, j, base, k);
    CompleteChild(paths, j, base, k);
    ParentsFirstChild(paths, j, base, k);
  }

  lemma ListedChild(paths: seq<string>, j: Json, base: Position, k: string)
    requires HasChild(j, k)
    requires AllListed(paths, Child(j, k), base + [k], Tokens(Child(j, k))) && Distinct(paths)
    ensures AllListed([Enc(base + [k])] + paths, j, base, {k}) && Distinct([Enc(base + [k])] + paths)
  {
    hide Enc, Dec, Listed;
    var all := [Enc(base + [k])] + paths;
    ListedHead(j, base, k);
    forall i | 0 < i < |all| ensures Listed(all[i], j, base, {k}) && all[i] != all[0] {
      assert Listed(paths[i - 1], Child(j, k), base + [k], Tokens(Child(j, k)));
      ListedBelowChild(paths[i - 1], j, base, k);
    }
    DistinctWithHead(all[0], paths);
  }

  lemma ListedHead(j: Json, base: Position, k: string)
    requires HasChild(j, k)
    ensures Listed(Enc(base + [k]), j, base, {k})
  {
    hide Enc, Dec;
    DecEnc(base + [k]);
    GetChild(j, k);
    assert (base + [k])[|base|..] == [k];
  }

  lemma DistinctWithHead(head: string, paths: seq<string>)
    requires Distinct(paths) && forall i :: 0 < i <= |paths| ==> ([head] + paths)[i] != head
    ensures Distinct([head] + paths)
  {
    var all := [head] + paths;
    forall i, m | 0 <= i < m < |all| ensures all[i] != all[m] {
      if i > 0 { assert all[i] == paths[i - 1] && all[m] == paths[m - 1]; }
    }
  }

  lemma ParentsFirstChild(paths: seq<string>, j: Json, base: Position, k: string)
    requires HasChild(j, k)
    requires AllListed(paths, Child(j, k), base + [k], Tokens(Child(j, k))) && ParentsFirst(paths, base + [k])
    ensures ParentsFirst([Enc(base + [k])] + paths, base)
  {
    var all := [Enc(base + [k])] + paths;
    DecEnc(base + [k]);
    forall i | 0 <= i < |all| ensures AncestorsIn(Dec(all[i]), base, all[..i]) {
      if i > 0 {
        assert all[i] == paths[i - 1] && all[..i] == [all[0]] + paths[..i - 1];
        assert AncestorsIn(Dec(paths[i - 1]), base + [k], paths[..i - 1]);
        ListedBelowChild(paths[i - 1], j, base, k);
      }
    }
  }

  lemma CompleteChild(paths: seq<string>, j: Json, base: Position, k: string)
    requires HasChild(j, k)
    requires Complete(paths, Child(j, k), base + [k], Tokens(Child(j, k)))
    ensures Complete([Enc(base + [k])] + paths, j, base, {k})
  {
    forall q | q != [] && q[0] in {k} && Has(j, q) ensures Enc(base + q) in [Enc(base + [k])] + paths {
      if |q| == 1 {
        assert q == [k];
      } else {
        assert base + q == base + [k] + q[1..];
        assert Has(Child(j, k), q[1..]);
      }
    }
  }

  lemma WalkOfUnion(a: seq<string>, b: seq<string>, j: Json, base: Position, ks: set<string>, ms: set<string>)
    requires WalkOfTokens(a, j, base, ks) && WalkOfTokens(b, j, base, ms) && ks !! ms
    ensures WalkOfTokens(a + b, j, base, ks + ms)
  {
    hide AllListed, Complete, Distinct, ParentsFirst;
    ListedUnion(a, b, j, base, ks, ms);
    CompleteUnion(a, b, j, base, ks, ms);
    ParentsFirstUnion(a, b, base);
  }

  lemma ListedUnion(a: seq<string>, b: seq<string>, j: Json, base: Position, ks: set<string>, ms: set<string>)
    requires AllListed(a, j, base, ks) && AllListed(b, j, base, ms) && ks !! ms && Distinct(a) && Distinct(b)
    ensures AllListed(a + b, j, base, ks + ms) && Distinct(a + b)
  {
    hide Enc, Dec, Get;
    var all := a + b;
    forall i | 0 <= i < |all| ensures Listed(all[i], j, base, ks + ms) {
      if i < |a| { assert Listed(a[i], j, base, ks); } else { assert Listed(b[i - |a|], j, base, ms); }
    }
    forall i, m | 0 <= i < m < |all| ensures all[i] != all[m] {
      if i < |a| && m >= |a| {
        assert Listed(a[i], j, base, ks) && Listed(b[m - |a|], j, base, ms);
      }
    }
  }

  lemma CompleteUnion(a: seq<string>, b: seq<string>, j: Json, base: Position, ks: set<string>, ms: set<string>)
    requires Complete(a, j, base, ks) && Complete(b, j, base, ms)
    ensures Complete(a + b, j, base, ks + ms)
  {
    hide Enc, Get;
    forall q | q != [] && q[0] in ks + ms && Has(j, q) ensures Enc(base + q) in a + b {
      assert Enc(base + q) in a || Enc(base + q) in b;
    }
  }

  lemma ParentsFirstUnion(a: seq<string>, b: seq<string>, base: Position)
    requires ParentsFirst(a, base) && ParentsFirst(b, base)
    ensures ParentsFirst(a + b, base)
  {
    hide Enc, Dec;
    var all := a + b;
    forall i | 0 <= i < |all| ensures AncestorsIn(Dec(all[i]), base, all[..i]) {
      if i < |a| {
        assert all[..i] == a[..i];
      } else {
        assert all[..i] == a + b[..i - |a|];
        assert AncestorsIn(Dec(b[i - |a|]), base, b[..i - |a|]);
      }
    }
  }

  /** s is the pointer of a position of j other than its root. */
  predicate PointerInto(s: string, j: Json) {
    s == Enc(Dec(s)) && Dec(s) != [] && Has(j, Dec(s))
  }

  ghost predicate AllInto(paths: seq<string>, j: Json) {
    forall i :: 0 <= i < |paths| ==> PointerInto(paths[i], j)
  }

  ghost predicate AllOf(paths: seq<string>, j: Json) {
    forall q :: q != [] && Has(j, q) ==> Enc(q) in paths
  }

  /** Every pointer of a walk evaluates to the subtree it was written for, and every position of the
      document other than its root has exactly one pointer in the walk; and nothing else is a walk. */
  lemma WalkIsExact(paths: seq<string>, j: Json)
    ensures IsWalk(paths, j) <==> AllInto(paths, j) && AllOf(paths, j) && Distinct(paths) && ParentsFirst(paths, [])
  {
    forall i | 0 <= i < |paths| ensures Listed(paths[i], j, [], Tokens(j)) <==> PointerInto(paths[i], j) {
      ListedFromRoot(paths[i], j);
    }
    assert AllListed(paths, j, [], Tokens(j)) <==> AllInto(paths, j);
    forall q ensures q != [] && q[0] in Tokens(j) && Has(j, q) <==> q != [] && Has(j, q) {
      if q != [] && Has(j, q) {
        GetPrefix(j, [q[0]], q);
        GetChild(j, q[0]);
      }
    }
    forall q: Position ensures [] + q == q {}
    assert Complete(paths, j, [], Tokens(j)) <==> AllOf(paths, j);
  }

  lemma ListedFromRoot(s: string, j: Json)
    ensures Listed(s, j, [], Tokens(j)) <==> PointerInto(s, j)
  {
    var q := Dec(s);
    assert q[0..] == q;
    if PointerInto(s, j) {
      GetPrefix(j, [q[0]], q);
      GetChild(j, q[0]);
    }
  }

  lemma WalkOfSamePositions(paths: seq<string>, a: Json, b: Json)
    requires IsWalk(paths, a) && forall q :: Has(a, q) <==> Has(b, q)
    ensures IsWalk(paths, b)
  {
    WalkIsExact(paths, a);
    WalkIsExact(paths, b);
  }

  // ---- the order of a walk ----

  /** What is at or below a position is listed without anything else in between. */
  ghost predicate DepthFirst(paths: seq<string>) {
    forall i, k, m :: 0 <= i < k < m < |paths| && Dec(paths[i]) <= Dec(paths[m]) ==> Dec(paths[i]) <= Dec(paths[k])
  }

  predicate Siblings(a: Position, b: Position) {
    a != [] && |a| == |b| && Parent(a) == Parent(b)
  }

  predicate HoldsList(j: Json, q: Position) {
    LabelAt(j, q).Some? && LabelAt(j, q).value.LArr?
  }

  /** q is, or would be, an element of a list of j. */
  predicate InList(j: Json, q: Position) {
    q != [] && HoldsList(j, Parent(q))
  }

  function LastIndex(q: Position): nat
    requires q != []
  {
    var i := ParseIndex(q[|q| - 1]);
    if i.Some? then i.value else 0
  }

  /** If a and b are elements of the same list, a is the earlier one. */
  predicate Ascends(a: Position, b: Position, j: Json, base: Position) {
    |base| < |a| && Siblings(a, b) && InList(j, a[|base|..]) ==> LastIndex(a) < LastIndex(b)
  }

  /** The elements of every list come in the order of their indices. */
  ghost predicate ElementsAscend(paths: seq<string>, j: Json, base: Position) {
    forall i, k :: 0 <= i < k < |paths| ==> Ascends(Dec(paths[i]), Dec(paths[k]), j, base)
  }

  ghost predicate OrderedWalk(paths: seq<string>, j: Json, base: Position, ks: set<string>) {
    WalkOfTokens(paths, j, base, ks) && DepthFirst(paths) && ElementsAscend(paths, j, base)
  }

  /** The order in which walking a document lists its positions: the members of an object in any order, the
      elements of a list by index, each followed by all that is below it. */
  ghost predicate Arranged(paths: seq<string>, j: Json) {
    DepthFirst(paths) && ElementsAscend(paths, j, [])
  }

  /** The path list may be the result of walking the document. */
  ghost predicate Walkable(paths: seq<string>, j: Json) {
    IsWalk(paths, j) && Arranged(paths, j)
  }

  /** Where these are elements of a list, those of ks come before those of ms. */
  predicate TokensAscend(j: Json, ks: set<string>, ms: set<string>) {
    j.Arr? ==> forall k, m :: k in ks && m in ms ==> LastIndex([k]) < LastIndex([m])
  }

  /** Different members of an object may follow each other in any order, different elements of a list by index. */
  lemma OrderedUnion(a: seq<string>, b: seq<string>, j: Json, base: Position, ks: set<string>, ms: set<string>)
    requires OrderedWalk(a, j, base, ks) && OrderedWalk(b, j, base, ms) && ks !! ms && TokensAscend(j, ks, ms)
    ensures OrderedWalk(a + b, j, base, ks + ms)
  {
    hide WalkOfTokens, DepthFirst, ElementsAscend, TokensAscend;
    WalkOfUnion(a, b, j, base, ks, ms);
    DepthFirstUnion(a, b, j, base, ks, ms);
    AscendingUnion(a, b, j, base, ks, ms);
  }

  lemma DepthFirstUnion(a: seq<string>, b: seq<string>, j: Json, base: Position, ks: set<string>, ms: set<string>)
    requires OrderedWalk(a, j, base, ks) && OrderedWalk(b, j, base, ms) && ks !! ms
    ensures DepthFirst(a + b)
  {
    hide Enc, Dec, WalkOfTokens, ElementsAscend;
    var all := a + b;
    forall i, k, m | 0 <= i < k < m < |all| && Dec(all[i]) <= Dec(all[m]) ensures Dec(all[i]) <= Dec(all[k]) {
      if m < |a| {
        assert Dec(a[i]) <= Dec(a[m]);
      } else if i >= |a| {
        assert Dec(b[i - |a|]) <= Dec(b[m - |a|]);
      } else {
        StartsWithToken(a, j, base, ks, i);
        StartsWithToken(b, j, base, ms, m - |a|);
      }
    }
  }

  lemma AscendingUnion(a: seq<string>, b: seq<string>, j: Json, base: Position, ks: set<string>, ms: set<string>)
    requires OrderedWalk(a, j, base, ks) && OrderedWalk(b, j, base, ms) && ks !! ms && TokensAscend(j, ks, ms)
    ensures ElementsAscend(a + b, j, base)
  {
    hide Enc, Dec, WalkOfTokens, DepthFirst, Ascends, TokensAscend;
    var all := a + b;
    forall i, k | 0 <= i < k < |all| ensures Ascends(Dec(all[i]), Dec(all[k]), j, base) {
      if k < |a| {
        assert Ascends(Dec(a[i]), Dec(a[k]), j, base);
      } else if i >= |a| {
        assert Ascends(Dec(b[i - |a|]), Dec(b[k - |a|]), j, base);
      } else {
        StartsWithToken(a, j, base, ks, i);
        StartsWithToken(b, j, base, ms, k - |a|);
        AscendingTokens(Dec(all[i]), Dec(all[k]), j, base, ks, ms);
      }
    }
  }

  lemma AscendingTokens(a: Position, b: Position, j: Json, base: Position, ks: set<string>, ms: set<string>)
    requires |a| > |base| && |b| > |base| && a[|base|] in ks && b[|base|] in ms && ks !! ms && TokensAscend(j, ks, ms)
    ensures Ascends(a, b, j, base)
  {
    if Siblings(a, b) && |a| == |base| + 1 && InList(j, a[|base|..]) {
      assert a[|base|..] == [a[|base|]] && Parent(a[|base|..]) == [];
      assert LastIndex(a) == LastIndex([a[|base|]]) && LastIndex(b) == LastIndex([b[|base|]]);
    }
  }

  lemma StartsWithToken(paths: seq<string>, j: Json, base: Position, ks: set<string>, i: nat)
    requires WalkOfTokens(paths, j, base, ks) && i < |paths|
    ensures |Dec(paths[i])| > |base| && Dec(paths[i])[|base|] in ks && base <= Dec(paths[i])
  {
    hide Enc, Dec;
    assert Listed(paths[i], j, base, ks);
  }

  /** The pointer of a child, followed by the ordered walk of that child. */
  lemma OrderedChild(paths: seq<string>, j: Json, base: Position, k: string)
    requires HasChild(j, k) && OrderedWalk(paths, Child(j, k), base + [k], Tokens(Child(j, k)))
    ensures OrderedWalk([Enc(base + [k])] + paths, j, base, {k})
  {
    hide Enc, WalkOfTokens, DepthFirst, ElementsAscend;
    WalkOfChild(paths, j, base, k);
    DepthFirstChild(paths, j, base, k);
    AscendingChild(paths, j, base, k);
  }

  lemma DepthFirstChild(paths: seq<string>, j: Json, base: Position, k: string)
    requires HasChild(j, k) && OrderedWalk(paths, Child(j, k), base + [k], Tokens(Child(j, k)))
    ensures DepthFirst([Enc(base + [k])] + paths)
  {
    hide Enc, Dec, WalkOfTokens, ElementsAscend;
    DecEnc(base + [k]);
    var all := [Enc(base + [k])] + paths;
    forall i, m, n | 0 <= i < m < n < |all| && Dec(all[i]) <= Dec(all[n]) ensures Dec(all[i]) <= Dec(all[m]) {
      if i == 0 {
        StartsWithToken(paths, Child(j, k), base + [k], Tokens(Child(j, k)), m - 1);
      } else {
        assert Dec(paths[i - 1]) <= Dec(paths[n - 1]);
      }
    }
  }

  lemma AscendingChild(paths: seq<string>, j: Json, base: Position, k: string)
    requires HasChild(j, k) && OrderedWalk(paths, Child(j, k), base + [k], Tokens(Child(j, k)))
    ensures ElementsAscend([Enc(base + [k])] + paths, j, base)
  {
    hide Enc, Dec, WalkOfTokens, DepthFirst, Ascends;
    DecEnc(base + [k]);
    var all := [Enc(base + [k])] + paths;
    forall i, m | 0 <= i < m < |all| ensures Ascends(Dec(all[i]), Dec(all[m]), j, base) {
      StartsWithToken(paths, Child(j, k), base + [k], Tokens(Child(j, k)), m - 1);
      if i == 0 {
        DeeperIsNoSibling(Dec(all[0]), Dec(all[m]), j, base);
      } else {
        StartsWithToken(paths, Child(j, k), base + [k], Tokens(Child(j, k)), i - 1);
        assert Ascends(Dec(paths[i - 1]), Dec(paths[m - 1]), Child(j, k), base + [k]);
        AscendsBelow(Dec(all[i]), Dec(all[m]), j, base, k);
      }
    }
  }

  lemma DeeperIsNoSibling(a: Position, b: Position, j: Json, base: Position)
    requires |a| < |b|
    ensures Ascends(a, b, j, base)
  {
  }

  lemma AscendsBelow(a: Position, b: Position, j: Json, base: Position, k: string)
    requires HasChild(j, k) && base + [k] < a && Ascends(a, b, Child(j, k), base + [k])
    ensures Ascends(a, b, j, base)
  {
    if Siblings(a, b) {
      var q := a[|base|..];
      assert q[0] == (base + [k])[|base|] == k && q[1..] == a[|base| + 1..];
      assert Parent(q) == [k] + Parent(q[1..]) && Parent(q)[1..] == Parent(q[1..]);
      LabelStep(j, Parent(q));
    }
  }

  /** An order stays one when there are fewer lists in the document. */
  lemma StillArranged(paths: seq<string>, a: Json, b: Json)
    requires Arranged(paths, a) && forall q :: HoldsList(b, q) ==> HoldsList(a, q)
    ensures Arranged(paths, b)
  {
    hide Dec, HoldsList;
    forall i, k | 0 <= i < k < |paths| ensures Ascends(Dec(paths[i]), Dec(paths[k]), b, []) {
      assert Ascends(Dec(paths[i]), Dec(paths[k]), a, []);
    }
  }

  /** The list without its i-th element. */
  function WithoutAt(s: seq<string>, i: nat): seq<string>
    requires i < |s|
  {
    s[..i] + s[i + 1..]
  }

  /** Leaving out one path keeps the others in order. */
  lemma ArrangedWithout(paths: seq<string>, j: Json, i: nat)
    requires Arranged(paths, j) && i < |paths|
    ensures Arranged(WithoutAt(paths, i), j)
  {
    hide Dec, Ascends;
    var r := WithoutAt(paths, i);
    forall a | 0 <= a < |r| ensures r[a] == paths[if a < i then a else a + 1] {}
  }

  // ---- a path list that grows ----

  /** after is before with paths appended that begin with the given string. */
  ghost predicate Extended(before: seq<string>, after: seq<string>, start: string) {
    before <= after && forall i :: |before| <= i < |after| ==> start <= after[i]
  }

  /** after is before with a walk of some children of j appended, written below the given pointer. */
  ghost predicate Walked(before: seq<string>, after: seq<string>, j: Json, pointer: string, ks: set<string>) {
    Extended(before, after, pointer) &&
    (pointer == Enc(Dec(pointer)) ==> OrderedWalk(after[|before|..], j, Dec(pointer), ks))
  }

  lemma WalkedNothing(paths: seq<string>, j: Json, pointer: string)
    ensures Walked(paths, paths, j, pointer, {})
  {
    assert paths[|paths|..] == [];
  }

  lemma WalkedBoth(a: seq<string>, b: seq<string>, c: seq<string>, j: Json, pointer: string, ks: set<string>,
                   ms: set<string>)
    requires Walked(a, b, j, pointer, ks) && Walked(b, c, j, pointer, ms) && ks !! ms && TokensAscend(j, ks, ms)
    ensures Walked(a, c, j, pointer, ks + ms)
  {
    hide Enc, Dec, OrderedWalk;
    if pointer == Enc(Dec(pointer)) {
      assert c[|a|..] == b[|a|..] + c[|b|..];
      OrderedUnion(b[|a|..], c[|b|..], j, Dec(pointer), ks, ms);
    }
  }

  lemma WalkedChild(a: seq<string>, c: seq<string>, j: Json, pointer: string, k: string)
    requires HasChild(j, k)
    requires var absolute := pointer + "/" + JsonPointerPath(k);
             Walked(a + [absolute], c, Child(j, k), absolute, Tokens(Child(j, k)))
    ensures Walked(a, c, j, pointer, {k})
  {
    hide Enc, Dec, OrderedWalk, JsonPointerPath;
    var absolute := pointer + "/" + JsonPointerPath(k);
    ExtendedChild(a, c, pointer, absolute);
    if pointer == Enc(Dec(pointer)) {
      EncChild(Dec(pointer), k);
      DecEnc(Dec(pointer) + [k]);
      assert c[|a|..] == [absolute] + c[|a| + 1..];
      OrderedChild(c[|a| + 1..], j, Dec(pointer), k);
    }
  }

  lemma ExtendedChild(a: seq<string>, c: seq<string>, pointer: string, absolute: string)
    requires Extended(a + [absolute], c, absolute) && pointer <= absolute
    ensures Extended(a, c, pointer) && c[|a|] == absolute
  {
    assert c[|a|] == (a + [absolute])[|a|];
    forall i | |a| <= i < |c| ensures pointer <= c[i] {
      if i > |a| { assert absolute <= c[i]; }
    }
  }

  /** Walking a whole document. */
  lemma WalkedFromRoot(before: seq<string>, after: seq<string>, j: Json)
    requires Walked(before, after, j, "", Tokens(j))
    ensures before <= after && Walkable(after[|before|..], j)
  {
    hide WalkOfTokens, DepthFirst, ElementsAscend;
    assert Dec("") == [] && Enc([]) == "";
  }
}
