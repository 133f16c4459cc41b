/** The orders in which a document can be walked: a walk for any ranking of the members of objects, and which
    of two positions comes first when the pointer of one is a string prefix of the pointer of the other. */
module Arranging {
  import opened Decimal
  import opened Documents
  import opened Pointers
  import opened Merging
  import opened Walking
  import opened Managed

  type Ranking = Position -> real

  // ---- walks for a ranking ----

  /** If a and b are members of the same object, a is not ranked behind b. */
  predicate InRank(a: Position, b: Position, j: Json, base: Position, rank: Ranking) {
    |base| < |a| && Siblings(a, b) && !InList(j, a[|base|..]) ==> rank(a) <= rank(b)
  }

  /** The members of every object come in the order of their ranks. */
  ghost predicate Ranked(paths: seq<string>, j: Json, base: Position, rank: Ranking) {
    forall i, k :: 0 <= i < k < |paths| ==> InRank(Dec(paths[i]), Dec(paths[k]), j, base, rank)
  }

  predicate RanksFirst(j: Json, base: Position, k: string, ks: set<string>, rank: Ranking) {
    if j.Arr? then forall m :: m in ks ==> LastIndex([k]) <= LastIndex([m])
    else forall m :: m in ks ==> rank(base + [k]) <= rank(base + [m])
  }

  lemma Foremost(j: Json, base: Position, ks: set<string>, rank: Ranking) returns (k: string)
    requires ks != {}
    ensures k in ks && RanksFirst(j, base, k, ks, rank)
    decreases ks
  {
    k :| k in ks;
    if ks - {k} == {} {
      assert ks == {k};
    } else {
      var other := Foremost(j, base, ks - {k}, rank);
      assert ks == {k} + (ks - {k});
      if if j.Arr? then LastIndex([other]) < LastIndex([k]) else rank(base + [other]) < rank(base + [k]) { k := other; }
    }
  }

  lemma {:induction false} RankedWalk(j: Json, base: Position, ks: set<string>, rank: Ranking)
    returns (paths: seq<string>)
    requires ks <= Tokens(j)
    ensures OrderedWalk(paths, j, base, ks) && Ranked(paths, j, base, rank)
    decreases j, ks
  {
    if ks == {} {
      paths := [];
    } else {
      hide Enc, Dec, OrderedWalk, Ranked, RanksFirst;
      var k := Foremost(j, base, ks, rank);
      var below := RankedWalk(Child(j, k), base + [k], Tokens(Child(j, k)), rank);
      var others := RankedWalk(j, base, ks - {k}, rank);
      OrderedChild(below, j, base, k);
      ForemostAscends(j, base, k, ks, rank);
      paths := [Enc(base + [k])] + below + others;
      OrderedUnion([Enc(base + [k])] + below, others, j, base, {k}, ks - {k});
      RankedJoined(below, others, j, base, k, ks, rank);
      assert {k} + (ks - {k}) == ks;
    }
  }

  lemma ForemostAscends(j: Json, base: Position, k: string, ks: set<string>, rank: Ranking)
    requires k in ks && ks <= Tokens(j) && RanksFirst(j, base, k, ks, rank)
    ensures TokensAscend(j, {k}, ks - {k})
  {
    if j.Arr? {
      forall m | m in ks - {k} ensures LastIndex([k]) < LastIndex([m]) {
        ItoaParse(k);
        ItoaParse(m);
      }
    }
  }

  lemma RankedJoined(below: seq<string>, others: seq<string>, j: Json, base: Position, k: string, ks: set<string>,
                     rank: Ranking)
    requires HasChild(j, k) && RanksFirst(j, base, k, ks, rank)
    requires OrderedWalk(below, Child(j, k), base + [k], Tokens(Child(j, k)))
    requires Ranked(below, Child(j, k), base + [k], rank)
    requires OrderedWalk(others, j, base, ks - {k}) && Ranked(others, j, base, rank)
    ensures Ranked([Enc(base + [k])] + below + others, j, base, rank)
  {
    hide Enc, Dec, WalkOfTokens, DepthFirst, ElementsAscend, InRank, RanksFirst;
    DecEnc(base + [k]);
    var all, n := [Enc(base + [k])] + below + others, |below| + 1;
    forall i, m | 0 <= i < m < |all| ensures InRank(Dec(all[i]), Dec(all[m]), j, base, rank) {
      if 0 < i < n { StartsWithToken(below, Child(j, k), base + [k], Tokens(Child(j, k)), i - 1); }
      if 0 < m < n { StartsWithToken(below, Child(j, k), base + [k], Tokens(Child(j, k)), m - 1); }
      if m >= n { StartsWithToken(others, j, base, ks - {k}, m - n); }
      if i >= n {
        assert InRank(Dec(others[i - n]), Dec(others[m - n]), j, base, rank);
      } else if m >= n {
        FirstInRank(Dec(all[i]), Dec(all[m]), j, base, k, ks, rank);
      } else if i > 0 {
        assert InRank(Dec(below[i - 1]), Dec(below[m - 1]), Child(j, k), base + [k], rank);
        InRankBelow(Dec(all[i]), Dec(all[m]), j, base, k, rank);
      } else {
        DeeperIsInRank(Dec(all[0]), Dec(all[m]), j, base, rank);
      }
    }
  }

  lemma DeeperIsInRank(a: Position, b: Position, j: Json, base: Position, rank: Ranking)
    requires |a| < |b|
    ensures InRank(a, b, j, base, rank)
  {
  }

  /** What is at or below the foremost child, and what is at or below another. */
  lemma FirstInRank(a: Position, b: Position, j: Json, base: Position, k: string, ks: set<string>, rank: Ranking)
    requires HasChild(j, k) && RanksFirst(j, base, k, ks, rank)
    requires base + [k] <= a && base <= b && |b| > |base| && b[|base|] in ks - {k}
    ensures InRank(a, b, j, base, rank)
  {
    assert a[|base|] == (base + [k])[|base|] == k;
    assert |a| > |base| + 1 ==> Parent(a)[|base|] == k;
    assert |b| > |base| + 1 ==> Parent(b)[|base|] == b[|base|];
    if Siblings(a, b) {
      assert a == base + [k] && b == base + [b[|base|]];
      assert a[|base|..] == [k] && Parent([k]) == [];
    }
  }

  lemma InRankBelow(a: Position, b: Position, j: Json, base: Position, k: string, rank: Ranking)
    requires HasChild(j, k) && base + [k] < a && InRank(a, b, Child(j, k), base + [k], rank)
    ensures InRank(a, b, j, base, rank)
  {
    if Siblings(a, b) {
      var q := a[|base|..];
      assert q[0] == (base + [k])[|base|] == k && q[1..] == a[|base| + 1..];
      assert Parent(q) == [k] + Parent(q[1..]) && Parent(q)[1..] == Parent(q[1..]);
      LabelStep(j, Parent(q));
    }
  }

  lemma WholeRankedWalk(j: Json, rank: Ranking) returns (paths: seq<string>)
    ensures Walkable(paths, j) && Ranked(paths, j, [], rank)
  {
    hide WalkOfTokens, DepthFirst, ElementsAscend, Ranked;
    paths := RankedWalk(j, [], Tokens(j), rank);
  }

  lemma AnyRanking(paths: seq<string>, j: Json)
    ensures Ranked(paths, j, [], NoRank)
  {
  }

  function NoRank(q: Position): real {
    0.0
  }

  // ---- pointers that are string prefixes ----

  /** Of two list indices, one that is a string prefix of the other is the smaller one. */
  lemma {:induction false} ShorterIndexIsSmaller(a: string, b: string)
    requires ParseIndex(a).Some? && ParseIndex(b).Some? && a < b
    ensures ParseIndex(a).value < ParseIndex(b).value
    decreases |b|
  {
    assert b[0] == a[0] && b[0] != '0';
    var init := b[..|b| - 1];
    assert DigitsValue(b) == DigitsValue(init) * 10 + (b[|b| - 1] - '0') as nat;
    if init == a {
      DigitsPositive(a);
    } else {
      ShorterIndexIsSmaller(a, init);
    }
  }

  /** Where the pointer of x is a string prefix of the pointer of w, x is above w or beside a position at or above w. */
  lemma BesideOrAbove(x: Position, w: Position)
    requires x != [] && Enc(x) <= Enc(w) && x != w
    ensures |x| <= |w| && Parent(x) <= w
    ensures var u := w[..|x|];
            && u != [] && u <= w && Parent(u) == Parent(x) && Enc(x) <= Enc(u)
            && if x <= w then u == x else u != x && Siblings(x, u) && Siblings(u, x) && |Enc(x)| < |Enc(u)|
  {
    hide Enc;
    PrefixMeaning(x, w);
    var u := w[..|x|];
    PrefixMeaning(x, u);
    assert Parent(u) == Parent(x);
    if u != x { LongerPointer(x, u); }
  }

  lemma LongerPointer(x: Position, u: Position)
    requires Enc(x) <= Enc(u) && x != u
    ensures |Enc(x)| < |Enc(u)|
  {
    hide Enc, Dec;
    DecEnc(x);
    DecEnc(u);
    assert |Enc(x)| == |Enc(u)| ==> Enc(x) == Enc(u);
  }

  /** The pointers of list elements compare as their indices do. */
  lemma ShorterElementIsEarlier(j: Json, x: Position, u: Position)
    requires InList(j, x) && Has(j, x) && Has(j, u) && Siblings(x, u) && x != u && Enc(x) <= Enc(u)
    ensures LastIndex(x) < LastIndex(u)
  {
    hide Enc, Get;
    GetLast(j, x);
    GetLast(j, u);
    PrefixMeaning(x, u);
    var a, b := x[|x| - 1], u[|u| - 1];
    assert x == Parent(x) + [a] && u == Parent(u) + [b];
    assert HasChild(Get(j, Parent(x)).value, a) && HasChild(Get(j, Parent(x)).value, b);
    EscPlain(a);
    EscPlain(b);
    assert a <= b && a != b;
    ShorterIndexIsSmaller(a, b);
  }

  // ---- which comes first ----

  lemma InWalk(paths: seq<string>, j: Json, k: nat)
    requires Walkable(paths, j) && k < |paths|
    ensures paths[k] == Enc(Dec(paths[k])) && Dec(paths[k]) != [] && Has(j, Dec(paths[k]))
    ensures AncestorsIn(Dec(paths[k]), [], paths[..k])
    ensures forall i :: 0 <= i < |paths| && paths[i] == paths[k] ==> i == k
  {
    hide Enc, Dec, Get, IsWalk, Arranged;
    WalkIsExact(paths, j);
    assert PointerInto(paths[k], j);
  }

  lemma WalkIndex(paths: seq<string>, j: Json, q: Position) returns (k: nat)
    requires Walkable(paths, j) && q != [] && Has(j, q)
    ensures k < |paths| && paths[k] == Enc(q) && Dec(paths[k]) == q
  {
    hide Enc, Dec, Get, IsWalk, Arranged;
    WalkIsExact(paths, j);
    DecEnc(q);
    assert Enc(q) in paths;
    k :| 0 <= k < |paths| && paths[k] == Enc(q);
  }

  /** Positions come after those above them. */
  lemma AboveIsBefore(paths: seq<string>, j: Json, i: nat, k: nat)
    requires Walkable(paths, j) && i < |paths| && k < |paths| && Dec(paths[i]) < Dec(paths[k])
    ensures i < k
  {
    hide Enc, Dec, Get, Walkable;
    InWalk(paths, j, i);
    InWalk(paths, j, k);
    var x, w := Dec(paths[i]), Dec(paths[k]);
    assert w[..|x|] == x;
    assert Enc(w[..|x|]) in paths[..k];
    var m :| 0 <= m < k && paths[m] == Enc(x);
    assert m == i;
  }

  /** i and k are in the order that the walk has for x and w. */
  predicate Placed(j: Json, rank: Ranking, x: Position, w: Position, i: nat, k: nat) {
    && x != [] && |x| <= |w|
    && (x <= w || InList(j, x) || rank(x) < rank(w[..|x|]) ==> i < k)
    && (!(x <= w) && !InList(j, x) && rank(w[..|x|]) < rank(x) ==> k < i)
  }

  /** Of two positions, one with a pointer that is a string prefix comes first if it is above the other, or a list
      element, or ranked before what is beside it; and last if it is none of the first two and ranked behind. */
  lemma WhichIsFirst(paths: seq<string>, j: Json, rank: Ranking, i: nat, k: nat)
    requires Walkable(paths, j) && Ranked(paths, j, [], rank) && i < |paths| && k < |paths|
    requires i != k && paths[i] <= paths[k]
    ensures Placed(j, rank, Dec(paths[i]), Dec(paths[k]), i, k)
  {
    hide Enc, Dec, Get, IsWalk, DepthFirst, ElementsAscend, Ranked, InList;
    InWalk(paths, j, i);
    InWalk(paths, j, k);
    var x, w := Dec(paths[i]), Dec(paths[k]);
    BesideOrAbove(x, w);
    if x <= w {
      AboveIsBefore(paths, j, i, k);
    } else {
      var u := w[..|x|];
      GetPrefix(j, u, w);
      var m := WalkIndex(paths, j, u);
      if u != w { AboveIsBefore(paths, j, m, k); }
      SiblingsInOrder(paths, j, rank, i, m);
      StayTogether(paths, m, i, k);
    }
  }

  lemma StayTogether(paths: seq<string>, m: nat, i: nat, k: nat)
    requires DepthFirst(paths) && m < |paths| && i < |paths| && k < |paths| && Dec(paths[m]) <= Dec(paths[k])
    ensures m < i < k ==> Dec(paths[m]) <= Dec(paths[i])
  {
    hide Dec;
  }

  lemma SiblingsInOrder(paths: seq<string>, j: Json, rank: Ranking, i: nat, m: nat)
    requires Walkable(paths, j) && Ranked(paths, j, [], rank) && i < |paths| && m < |paths|
    requires var x, u := Dec(paths[i]), Dec(paths[m]);
             Siblings(x, u) && Siblings(u, x) && x != u && Enc(x) <= Enc(u) && Has(j, x) && Has(j, u)
    ensures var x, u := Dec(paths[i]), Dec(paths[m]);
            && (InList(j, x) || rank(x) < rank(u) ==> i < m)
            && (!InList(j, x) && rank(u) < rank(x) ==> m < i)
  {
    hide Enc, Dec, Get, IsWalk, DepthFirst;
    var x, u := Dec(paths[i]), Dec(paths[m]);
    assert x[0..] == x && u[0..] == u;
    if InList(j, x) { ShorterElementIsEarlier(j, x, u); }
    if m < i { assert Ascends(u, x, j, []) && InRank(u, x, j, [], rank); }
    if i < m { assert InRank(x, u, j, [], rank); }
  }
}
