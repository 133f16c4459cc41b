/** The path lists that a comparison may start from, in the orders that Go's maps may choose, and what the
    template's loop passes over in one of them. */
module Choices {
  import opened Text
  import opened Documents
  import opened Pointers
  import opened Merging
  import opened Walking
  import opened Arranging
  import opened Preparing
  import opened Platform
  import opened Comparison
  import opened Loops
  import opened Items
  import opened Changes
  import opened Laws
  import opened Hiding
  import opened Exactness

  // ---- what preparing relates ----

  /** What preparing makes of the template t0 for the comparison with p: at the preserved paths rs, t has what p
      has, or nothing; elsewhere it has what t0 has; and what both t0 and p had at a preserved path is not lost. */
  ghost predicate PreservedFrom(t0: Json, t: Json, p: Json, rs: seq<string>) {
    && AllProper(rs) && AgreeAll(t, p, rs)
    && (forall q :: Unpreserved(q, rs) ==> LabelAt(t, q) == LabelAt(t0, q))
    && (forall i :: 0 <= i < |rs| && Has(t0, Dec(rs[i])) && Has(p, Dec(rs[i])) ==> Has(t, Dec(rs[i])))
  }

  /** Preparing does that. */
  lemma PreparingPreserves(t: Snapshot, p: Snapshot, rs: seq<string>)
    requires WellPrepared(t, p, rs)
    ensures PreservedFrom(t.config, TemplateDocument(t, p, rs), PlatformDocument(t, p), rs)
  {
    hide Enc, Dec, Get, PreserveAll, Prepared, PlainAnnotations, PlainApiVersion, Settable;
    var unmanaged := Unmanaged(p.annotations, t.annotations, p.lastAppliedAnnotations);
    PreserveAllEffect(t.config, p.config, rs);
    forall i | 0 <= i < |rs|
      ensures Get(PlatformDocument(t, p), Dec(rs[i])) == Get(p.config, Dec(rs[i])) && ProperPointer(rs[i])
      ensures Has(t.config, Dec(rs[i])) && Has(p.config, Dec(rs[i])) ==> Has(TemplateDocument(t, p, rs), Dec(rs[i]))
      ensures Agree(TemplateDocument(t, p, rs), p.config, Dec(rs[i]))
    {
      PreparedElsewhere(p.config, unmanaged, p.lastApplied, Dec(rs[i]));
      if Has(p.config, Dec(rs[i])) { PreservedIsSet(t.config, p.config, rs, Dec(rs[i])); }
    }
  }

  /** A path list for the comparison with the platform's document is one for its prepared document. */
  lemma PreparedForBoth(tw: seq<string>, t0: Json, t: Json, p: Json, p': Json, rs: seq<string>)
    requires PreparedList(tw, t0, t, p, rs) && forall q :: Has(p', q) ==> Has(p, q)
    ensures PreparedList(tw, t0, t, p', rs)
  {
    hide Enc, Dec, Get, WalkFirst;
    forall i | 0 <= i < |tw| ensures ListsPath(tw[i], t, p', rs) { assert ListsPath(tw[i], t, p, rs); }
  }

  lemma UnpreservedPointer(rs: seq<string>, q: Position)
    requires AllProper(rs)
    ensures Unpreserved(q, rs) || AnyPrefix(rs, Enc(q))
  {
    hide Enc, Dec;
    if !Unpreserved(q, rs) {
      var i :| 0 <= i < |rs| && Dec(rs[i]) <= q;
      assert ProperPointer(rs[i]);
      EncPrefixOfDescendant(Dec(rs[i]), q);
    }
  }

  lemma UnpreservedAbove(q: Position, up: Position, rs: seq<string>)
    requires Unpreserved(q, rs) && up <= q
    ensures Unpreserved(up, rs)
  {
    hide Dec;
    forall i | 0 <= i < |rs| ensures !(Dec(rs[i]) <= up) { assert !(Dec(rs[i]) <= q); }
  }

  /** At and below a preserved path, the template has what the platform has. */
  lemma PreservedAgrees(t0: Json, t: Json, p: Json, rs: seq<string>, q: Position)
    requires PreservedFrom(t0, t, p, rs) && !Unpreserved(q, rs)
    ensures Has(t, q) ==> Get(t, q) == Get(p, q)
    ensures Has(t0, q) && Has(p, q) ==> Has(t, q)
  {
    hide Dec, Get;
    var i :| 0 <= i < |rs| && Dec(rs[i]) <= q;
    assert Agree(t, p, Dec(rs[i]));
    if Has(t, q) { SameBelowPrefix(t, p, Dec(rs[i]), q); }
    if Has(t0, q) && Has(p, q) {
      GetPrefix(t0, Dec(rs[i]), q);
      GetPrefix(p, Dec(rs[i]), q);
      SameThere(t, p, Dec(rs[i]), q);
    }
  }

  // ---- path lists to order ----

  /** The two path lists may be those of the prepared documents. */
  ghost predicate Possible(t0: Json, t: Json, p: Json, rs: seq<string>, tw: seq<string>, pw: seq<string>) {
    PreparedList(tw, t0, t, p, rs) && Walkable(pw, p)
  }

  /** A path list of the template that begins with a walk in the order of the ranks. */
  ghost predicate ChosenList(t0: Json, t: Json, p: Json, rs: seq<string>, rank: Ranking, tw: seq<string>, n: nat) {
    Lists(tw, t, p, rs) && WalkFirst(tw, n, t0, rs) && Ranked(tw[..n], t0, [], rank)
  }

  /** The paths at or below preserved ones. */
  ghost function PreservedAmong(paths: seq<string>, rs: seq<string>): (r: seq<string>)
    ensures forall s :: s in r <==> s in paths && !Unpreserved(Dec(s), rs)
  {
    if paths == [] then []
    else
      var n := |paths| - 1;
      assert paths == paths[..n] + [paths[n]];
      PreservedAmong(paths[..n], rs) + if Unpreserved(Dec(paths[n]), rs) then [] else [paths[n]]
  }

  lemma ChooseList(t0: Json, t: Json, p: Json, rs: seq<string>, rank: Ranking) returns (tw: seq<string>, n: nat)
    requires PreservedFrom(t0, t, p, rs)
    ensures ChosenList(t0, t, p, rs, rank, tw, n)
  {
    hide Enc, Dec, Walkable, Ranked, PreservedFrom, PreservedAmong;
    var walk := WholeRankedWalk(t0, rank);
    var rest := WholeRankedWalk(t, NoRank);
    var more := PreservedAmong(rest, rs);
    tw, n := walk + more, |walk|;
    assert tw[..n] == walk;
    forall k | n <= k < |tw| ensures !Unpreserved(Dec(tw[k]), rs) {
      assert tw[k] == more[k - n] && more[k - n] in more;
    }
    ListsChosen(t0, t, p, rs, walk, rest, more);
  }

  lemma ListsChosen(t0: Json, t: Json, p: Json, rs: seq<string>, walk: seq<string>, rest: seq<string>,
                    more: seq<string>)
    requires PreservedFrom(t0, t, p, rs) && Walkable(walk, t0) && Walkable(rest, t)
    requires forall s :: s in more <==> s in rest && !Unpreserved(Dec(s), rs)
    ensures Lists(walk + more, t, p, rs)
  {
    hide Enc, Dec, Get, Walkable, PreservedFrom, AnyPrefix, Unpreserved;
    var all := walk + more;
    forall i | 0 <= i < |all|
      ensures ListsPath(all[i], t, p, rs) && (|walk| <= i ==> AnyPrefix(rs, all[i]))
      ensures !AnyPrefix(rs, all[i]) ==> AncestorsIn(Dec(all[i]), [], all[..i])
      ensures i < |walk| ==> forall k :: 0 <= k < |walk| && walk[k] == all[i] ==> k == i
    {
      if i < |walk| {
        assert all[..i] == walk[..i];
        InWalk(walk, t0, i);
        ListedFromWalk(t0, t, p, rs, all[i]);
      } else {
        assert all[i] == more[i - |walk|] && more[i - |walk|] in more;
        var k :| 0 <= k < |rest| && rest[k] == all[i];
        InWalk(rest, t, k);
        UnpreservedPointer(rs, Dec(all[i])) by { PreservedMeans(t0, t, p, rs); }
      }
    }
    forall q | q != [] && Has(t, q) ensures Enc(q) in all {
      DecEnc(q);
      if Unpreserved(q, rs) {
        PreservedMeans(t0, t, p, rs);
        var k := WalkIndex(walk, t0, q);
        assert all[k] == Enc(q);
      } else {
        var k := WalkIndex(rest, t, q);
        assert Enc(q) in more;
      }
    }
  }

  lemma PreservedMeans(t0: Json, t: Json, p: Json, rs: seq<string>)
    requires PreservedFrom(t0, t, p, rs)
    ensures AllProper(rs)
    ensures forall q :: Unpreserved(q, rs) ==> LabelAt(t, q) == LabelAt(t0, q) && (Has(t, q) <==> Has(t0, q))
  {
    hide Dec, Get;
    forall q | Unpreserved(q, rs) ensures Has(t, q) <==> Has(t0, q) { assert LabelAt(t, q) == LabelAt(t0, q); }
  }

  lemma ListedFromWalk(t0: Json, t: Json, p: Json, rs: seq<string>, s: string)
    requires PreservedFrom(t0, t, p, rs) && s == Enc(Dec(s)) && Dec(s) != [] && Has(t0, Dec(s))
    ensures ListsPath(s, t, p, rs)
  {
    hide Enc, Dec, Get, AnyPrefix, Unpreserved, PreservedFrom;
    PreservedMeans(t0, t, p, rs);
    UnpreservedPointer(rs, Dec(s));
    if !Unpreserved(Dec(s), rs) { PreservedAgrees(t0, t, p, rs, Dec(s)); }
  }

  lemma ChosenIsPossible(t0: Json, t: Json, p: Json, rs: seq<string>, rank: Ranking, tw: seq<string>, n: nat,
                         pw: seq<string>)
    requires ChosenList(t0, t, p, rs, rank, tw, n) && Walkable(pw, p)
    ensures Possible(t0, t, p, rs, tw, pw) && Lists(tw, t, p, rs)
  {
    hide Lists, WalkFirst, Walkable, Ranked;
  }

  /** Any possible list is one for some ranking. */
  lemma PossibleIsChosen(t0: Json, t: Json, p: Json, rs: seq<string>, tw: seq<string>, pw: seq<string>) returns (n: nat)
    requires Possible(t0, t, p, rs, tw, pw)
    ensures ChosenList(t0, t, p, rs, NoRank, tw, n) && Lists(tw, t, p, rs) && Walkable(pw, p)
  {
    hide Lists, WalkFirst, Walkable, Ranked;
    n :| WalkFirst(tw, n, t0, rs);
    WalkFits(tw, n, t0, rs);
    AnyRanking(tw[..n], t0);
  }

  lemma WalkFits(tw: seq<string>, n: nat, t0: Json, rs: seq<string>)
    requires WalkFirst(tw, n, t0, rs)
    ensures n <= |tw|
  {
  }

  // ---- what is passed over ----

  /** Where an unpreserved position stands: in the walk that the list begins with, once. */
  lemma ChosenIndex(t0: Json, t: Json, p: Json, rs: seq<string>, rank: Ranking, tw: seq<string>, n: nat, q: Position)
    returns (k: nat)
    requires PreservedFrom(t0, t, p, rs) && ChosenList(t0, t, p, rs, rank, tw, n) && q != [] && Has(t0, q)
    ensures k < n <= |tw| && tw[k] == Enc(q) && Dec(tw[k]) == q
    ensures Unpreserved(q, rs) ==> forall i :: 0 <= i < |tw| && tw[i] == Enc(q) ==> i == k
  {
    hide Enc, Dec, Get, Walkable, Ranked, Lists, Unpreserved;
    k := WalkIndex(tw[..n], t0, q);
    InWalk(tw[..n], t0, k);
    forall i | 0 <= i < |tw| && tw[i] == Enc(q) && Unpreserved(q, rs) ensures i == k {
      if i < n { assert tw[..n][i] == tw[..n][k]; }
    }
  }

  /** What the template adds is unpreserved, and in the walk. */
  lemma AddedIndex(t0: Json, t: Json, p: Json, rs: seq<string>, rank: Ranking, tw: seq<string>, n: nat, x: Position)
    returns (m: nat)
    requires PreservedFrom(t0, t, p, rs) && ChosenList(t0, t, p, rs, rank, tw, n) && AddsAt(t, p, rs, x)
    ensures m < n <= |tw| && tw[m] == Enc(x) && Dec(tw[m]) == x && Adds(t, p, rs, tw[m])
  {
    hide Enc, Dec, Get, AnyPrefix, ChosenList, PreservedFrom, Unpreserved;
    AddedMeans(t0, t, p, rs, x);
    m := ChosenIndex(t0, t, p, rs, rank, tw, n, x);
  }

  lemma AddedMeans(t0: Json, t: Json, p: Json, rs: seq<string>, x: Position)
    requires PreservedFrom(t0, t, p, rs) && AddsAt(t, p, rs, x)
    ensures x != [] && Unpreserved(x, rs) && Has(t, x) && Has(t0, x) && !Has(p, x) && Has(p, Parent(x))
    ensures InList(t, x) <==> InList(t0, x)
  {
    hide Enc, Dec, Get, AnyPrefix, Unpreserved, PreservedFrom;
    PreservedMeans(t0, t, p, rs);
    UnpreservedPointer(rs, x);
    UnpreservedAbove(x, Parent(x), rs);
  }

  /** In the list, something before the k-th path hides it. */
  lemma HiddenBefore(t: Json, p: Json, rs: seq<string>, tw: seq<string>, k: nat) returns (m: nat)
    requires Lists(tw, t, p, rs) && k < |tw| && PassedBy(t, p, rs, tw, k)
    ensures m < k && tw[m] == Enc(Dec(tw[m])) && AddsAt(t, p, rs, Dec(tw[m]))
    ensures tw[k] == Enc(Dec(tw[k])) && Dec(tw[k]) != [] && tw[m] <= tw[k] && Dec(tw[m]) != Dec(tw[k])
    ensures HiddenBySome(t, p, rs, Dec(tw[k]))
  {
    hide Enc, Dec, Get, AnyPrefix;
    m :| 0 <= m < k && Adds(t, p, rs, tw[m]) && tw[m] <= tw[k];
    NotYetDropped(t, p, rs, tw, m);
    NotYetDropped(t, p, rs, tw, k);
    OnceOnly(t, p, rs, tw, m);
  }

  /** x hides w in a list for the ranking. */
  ghost predicate HidesThere(t0: Json, t: Json, p: Json, rs: seq<string>, rank: Ranking, x: Position, w: Position) {
    && AddsAt(t, p, rs, x) && x != w && Enc(x) <= Enc(w)
    && (x <= w || InList(t, x) || !Has(t0, w) || (|x| <= |w| && rank(x) < rank(w[..|x|])))
  }

  lemma HiddenThere(t0: Json, t: Json, p: Json, rs: seq<string>, rank: Ranking, tw: seq<string>, n: nat, x: Position,
                    w: Position)
    requires PreservedFrom(t0, t, p, rs) && ChosenList(t0, t, p, rs, rank, tw, n)
    requires HidesThere(t0, t, p, rs, rank, x, w)
    ensures forall k :: 0 <= k < |tw| && tw[k] == Enc(w) ==> PassedBy(t, p, rs, tw, k)
    ensures !Seen(t, p, rs, tw, Enc(w))
  {
    hide Enc, Dec, Get, Walkable, Ranked, Lists, PreservedFrom, Unpreserved, InList, Adds, AddsAt;
    var m := AddedIndex(t0, t, p, rs, rank, tw, n, x);
    AddedMeans(t0, t, p, rs, x);
    DecEnc(w);
    forall k | 0 <= k < |tw| && tw[k] == Enc(w) ensures PassedBy(t, p, rs, tw, k) {
      if k < n {
        InWalk(tw[..n], t0, k);
        WhichIsFirst(tw[..n], t0, rank, m, k);
      }
    }
  }

  /** No position that the template adds hides w in a list for the ranking. */
  ghost predicate NotHiddenThere(t: Json, p: Json, rs: seq<string>, rank: Ranking, w: Position) {
    forall x :: AddsAt(t, p, rs, x) && x != w && Enc(x) <= Enc(w) ==>
                  !InList(t, x) && |x| <= |w| && rank(w[..|x|]) < rank(x)
  }

  lemma NotPassedBy(t0: Json, t: Json, p: Json, rs: seq<string>, rank: Ranking, tw: seq<string>, n: nat, k: nat)
    requires PreservedFrom(t0, t, p, rs) && ChosenList(t0, t, p, rs, rank, tw, n) && k < n
    requires Dec(tw[k]) != [] && Has(p, Parent(Dec(tw[k]))) && NotHiddenThere(t, p, rs, rank, Dec(tw[k]))
    ensures !PassedBy(t, p, rs, tw, k)
  {
    hide Enc, Dec, Get, Walkable, Ranked, PreservedFrom, Unpreserved, InList, AddsAt, PassedBy;
    if PassedBy(t, p, rs, tw, k) {
      var m := HiddenBefore(t, p, rs, tw, k);
      var x, w := Dec(tw[m]), Dec(tw[k]);
      AddedMeans(t0, t, p, rs, x);
      InWalk(tw[..n], t0, m);
      WhichIsFirst(tw[..n], t0, rank, m, k);
      if x <= w { AddedIsNotAbove(p, x, w); }
    }
  }

  lemma AddedIsNotAbove(p: Json, x: Position, w: Position)
    requires w != [] && Has(p, Parent(w)) && !Has(p, x)
    ensures x <= w ==> x == w
  {
    if x <= w && x != w {
      assert x == Parent(w)[..|x|];
      GetPrefix(p, x, Parent(w));
    }
  }

  // ---- what preparing appends ----

  /** Two path lists of the prepared template that begin with the same walk. */
  ghost predicate SameWalk(t0: Json, t: Json, p: Json, rs: seq<string>, tw: seq<string>, tw': seq<string>, n: nat) {
    && Lists(tw, t, p, rs) && Lists(tw', t, p, rs) && WalkFirst(tw, n, t0, rs) && WalkFirst(tw', n, t0, rs)
    && tw[..n] == tw'[..n]
  }

  lemma SameWalkMeans(t0: Json, t: Json, p: Json, rs: seq<string>, tw: seq<string>, tw': seq<string>, n: nat)
    requires SameWalk(t0, t, p, rs, tw, tw', n)
    ensures SameWalk(t0, t, p, rs, tw', tw, n) && n <= |tw| && n <= |tw'| && tw[..n] == tw'[..n]
    ensures ChosenList(t0, t, p, rs, NoRank, tw, n) && Lists(tw, t, p, rs)
  {
    hide Lists, Walkable, Unpreserved, Ranked;
    AnyRanking(tw[..n], t0);
  }

  lemma SamePath(t0: Json, t: Json, p: Json, rs: seq<string>, tw: seq<string>, tw': seq<string>, n: nat, k: nat)
    requires SameWalk(t0, t, p, rs, tw, tw', n) && k < n
    ensures k < |tw| && k < |tw'| && tw[k] == tw'[k]
  {
    hide Lists, Walkable, Unpreserved;
    assert tw[..n][k] == tw'[..n][k];
  }

  lemma PassedInBoth(t0: Json, t: Json, p: Json, rs: seq<string>, tw: seq<string>, tw': seq<string>, n: nat, k: nat)
    requires SameWalk(t0, t, p, rs, tw, tw', n) && k < n && n <= |tw| && n <= |tw'|
    ensures PassedBy(t, p, rs, tw, k) <==> PassedBy(t, p, rs, tw', k)
  {
    hide SameWalk, Adds;
    forall m | 0 <= m <= k ensures tw[m] == tw'[m] { SamePath(t0, t, p, rs, tw, tw', n, m); }
  }

  lemma SeenInBoth(t0: Json, t: Json, p: Json, rs: seq<string>, tw: seq<string>, tw': seq<string>, n: nat, w: Position)
    requires PreservedFrom(t0, t, p, rs) && SameWalk(t0, t, p, rs, tw, tw', n) && w != [] && Has(p, w)
    ensures Seen(t, p, rs, tw, Enc(w)) ==> Seen(t, p, rs, tw', Enc(w))
  {
    hide Enc, Dec, Get, PreservedFrom, SameWalk, PassedBy, ChosenList, AnyPrefix, Adds;
    SameWalkMeans(t0, t, p, rs, tw, tw', n);
    if Seen(t, p, rs, tw, Enc(w)) {
      var k :| 0 <= k < |tw| && tw[k] == Enc(w) && !PassedBy(t, p, rs, tw, k);
      if k < n {
        SamePath(t0, t, p, rs, tw, tw', n, k);
        PassedInBoth(t0, t, p, rs, tw, tw', n, k);
      } else {
        SeenLate(t0, t, p, rs, tw, n, k, w);
        SameWalkMeans(t0, t, p, rs, tw', tw, n);
        var k' := IndexIn(t, p, rs, tw', w);
        if PassedBy(t, p, rs, tw', k') { var m := HiddenBefore(t, p, rs, tw', k'); }
      }
    }
  }

  /** What is appended and compared is not hidden by anything that the template adds. */
  lemma SeenLate(t0: Json, t: Json, p: Json, rs: seq<string>, tw: seq<string>, n: nat, k: nat, w: Position)
    requires PreservedFrom(t0, t, p, rs) && ChosenList(t0, t, p, rs, NoRank, tw, n) && Lists(tw, t, p, rs)
    requires n <= k < |tw| && tw[k] == Enc(w) && !PassedBy(t, p, rs, tw, k) && Has(p, w)
    ensures Has(t, w) && !HiddenBySome(t, p, rs, w)
  {
    hide Enc, Dec, Get, PreservedFrom, ChosenList, AnyPrefix, Adds, AddsAt;
    DecEnc(w);
    assert ListsPath(tw[k], t, p, rs);
    if HiddenBySome(t, p, rs, w) {
      var x :| AddsAt(t, p, rs, x) && x != w && Enc(x) <= Enc(w);
      var m := AddedIndex(t0, t, p, rs, NoRank, tw, n, x);
    }
  }

  /** What is not preserved is not appended. */
  lemma FoundInWalk(t0: Json, t: Json, p: Json, rs: seq<string>, tw: seq<string>, tw': seq<string>, n: nat, k: nat)
    requires AllProper(rs) && SameWalk(t0, t, p, rs, tw, tw', n) && k < |tw| && !LeftAlone(t, p, rs, tw, k)
    ensures k < n && k < |tw'| && tw'[k] == tw[k] && !LeftAlone(t, p, rs, tw', k)
  {
    hide Enc, Dec, Get, AnyPrefix, PassedBy, Lists, Walkable, Unpreserved;
    SameWalkMeans(t0, t, p, rs, tw, tw', n);
    NotYetDropped(t, p, rs, tw, k);
    UnpreservedPointer(rs, Dec(tw[k]));
    SamePath(t0, t, p, rs, tw, tw', n, k);
    PassedInBoth(t0, t, p, rs, tw, tw', n, k);
  }

  lemma MismatchInBoth(kind: string, t0: Json, t: Json, p: Json, rs: seq<string>, tw: seq<string>, tw': seq<string>,
                       n: nat)
    requires AllProper(rs) && SameWalk(t0, t, p, rs, tw, tw', n) && MismatchAmong(kind, t, p, rs, tw, |tw|)
    ensures n <= |tw| && MismatchAmong(kind, t, p, rs, tw, n) && MismatchAmong(kind, t, p, rs, tw', |tw'|)
  {
    hide Dec, SameWalk, Mismatch, LeftAlone, AllProper;
    SameWalkMeans(t0, t, p, rs, tw, tw', n);
    var k :| 0 <= k < |tw| && Mismatch(kind, t, p, Dec(tw[k])) && !LeftAlone(t, p, rs, tw, k);
    FoundInWalk(t0, t, p, rs, tw, tw', n, k);
  }

  lemma DroppedInBoth(t0: Json, t: Json, p: Json, rs: seq<string>, tw: seq<string>, tw': seq<string>, n: nat,
                      q: Position)
    requires AllProper(rs) && SameWalk(t0, t, p, rs, tw, tw', n)
    ensures DroppedAmong(t, p, rs, tw, |tw|, q) ==> DroppedAmong(t, p, rs, tw', |tw'|, q)
  {
    hide Enc, Dec, SameWalk, Dropped, LeftAlone, AllProper;
    if DroppedAmong(t, p, rs, tw, |tw|, q) {
      var k :| 0 <= k < |tw| && tw[k] == Enc(q) && Dropped(t, p, q) && !LeftAlone(t, p, rs, tw, k);
      FoundInWalk(t0, t, p, rs, tw, tw', n, k);
    }
  }

  lemma TakenInBoth(t: Json, p: Json, rs: seq<string>, tw: seq<string>, tw': seq<string>, pw: seq<string>, q: Position)
    requires forall m :: 0 <= m < |pw| ==> (Seen(t, p, rs, tw, pw[m]) <==> Seen(t, p, rs, tw', pw[m]))
    ensures Taken(t, p, rs, tw, pw, |pw|, q) <==> Taken(t, p, rs, tw', pw, |pw|, q)
  {
    hide Dec, Get, Seen;
    forall m | 0 <= m < |pw| ensures Tells(t, p, rs, tw, pw, m) <==> Tells(t, p, rs, tw', pw, m) {}
    forall m | 0 <= m < |pw| ensures Takes(t, p, rs, tw, pw, m) <==> Takes(t, p, rs, tw', pw, m) {
      ToldInBoth(t, p, rs, tw, tw', pw, m);
    }
    TakenAlike(t, p, rs, tw, tw', pw, q);
  }

  lemma ToldInBoth(t: Json, p: Json, rs: seq<string>, tw: seq<string>, tw': seq<string>, pw: seq<string>, m: nat)
    requires m < |pw| && forall i :: 0 <= i < |pw| ==> (Tells(t, p, rs, tw, pw, i) <==> Tells(t, p, rs, tw', pw, i))
    ensures ToldBefore(t, p, rs, tw, pw, m, pw[m]) <==> ToldBefore(t, p, rs, tw', pw, m, pw[m])
  {
    hide Tells;
  }

  lemma TakenAlike(t: Json, p: Json, rs: seq<string>, tw: seq<string>, tw': seq<string>, pw: seq<string>, q: Position)
    requires forall m :: 0 <= m < |pw| ==> (Takes(t, p, rs, tw, pw, m) <==> Takes(t, p, rs, tw', pw, m))
    ensures Taken(t, p, rs, tw, pw, |pw|, q) <==> Taken(t, p, rs, tw', pw, |pw|, q)
  {
    hide Dec, Takes;
  }

  lemma EndInBoth(t0: Json, t: Json, p: Json, rs: seq<string>, tw: seq<string>, tw': seq<string>, n: nat,
                  pw: seq<string>, d: Json, d': Json)
    requires PreservedFrom(t0, t, p, rs) && SameWalk(t0, t, p, rs, tw, tw', n) && IsWalk(pw, p)
    requires Final(t, p, rs, tw, pw, d) && Final(t, p, rs, tw', pw, d')
    ensures d == d'
  {
    hide Enc, Dec, Get, SameWalk, Taken, DroppedAmong, IsWalk, Seen, PreservedFrom, AllProper;
    SameWalkMeans(t0, t, p, rs, tw, tw', n);
    PreservedMeans(t0, t, p, rs);
    WalkIsExact(pw, p);
    forall m | 0 <= m < |pw| ensures Seen(t, p, rs, tw, pw[m]) <==> Seen(t, p, rs, tw', pw[m]) {
      assert PointerInto(pw[m], p);
      SeenInBoth(t0, t, p, rs, tw, tw', n, Dec(pw[m]));
      SeenInBoth(t0, t, p, rs, tw', tw, n, Dec(pw[m]));
    }
    forall q ensures LabelAt(d, q) == LabelAt(d', q) {
      TakenInBoth(t, p, rs, tw, tw', pw, q);
      DroppedInBoth(t0, t, p, rs, tw, tw', n, q);
      DroppedInBoth(t0, t, p, rs, tw', tw, n, q);
    }
    SameLabels(d, d');
  }

  /** Preparing appends the preserved paths and what is below them. In which order, and how often, makes no difference:
      two path lists that begin with the same walk of the template lead to the same result. */
  lemma AppendedPathsDoNotMatter(kind: string, name: string, pKind: string, pName: string, t0: Json, t: Json, p: Json,
                                 rs: seq<string>, tw: seq<string>, tw': seq<string>, n: nat, pw: seq<string>,
                                 allowRecreate: bool)
    requires PreservedFrom(t0, t, p, rs) && SameWalk(t0, t, p, rs, tw, tw', n) && IsWalk(pw, p)
    requires PlainAnnotations(p) && DropsMembersOnly(t, p) && KeepsMembersOnly(t, p)
    ensures LoopsOutcome(kind, name, pKind, pName, t, p, rs, tw, pw, allowRecreate) ==
            LoopsOutcome(kind, name, pKind, pName, t, p, rs, tw', pw, allowRecreate)
  {
    hide SameWalk, IsWalk, PreservedFrom, PlainAnnotations, DropsMembersOnly, KeepsMembersOnly, MismatchAmong, Final,
      FinalDocument, TemplateLoop, PlatformLoop, StopsAtField, AllProper, StopAt, Lists, ChosenList;
    SameWalkMeans(t0, t, p, rs, tw, tw', n);
    SameWalkMeans(t0, t, p, rs, tw', tw, n);
    PreservedMeans(t0, t, p, rs);
    LoopsEndFinal(kind, name, pKind, pName, t, p, rs, tw, pw, allowRecreate);
    LoopsEndFinal(kind, name, pKind, pName, t, p, rs, tw', pw, allowRecreate);
    if MismatchAmong(kind, t, p, rs, tw, |tw|) {
      StopsInBoth(kind, t0, t, p, rs, tw, tw', n);
    } else {
      if MismatchAmong(kind, t, p, rs, tw', |tw'|) { MismatchInBoth(kind, t0, t, p, rs, tw', tw, n); }
      EndInBoth(t0, t, p, rs, tw, tw', n, pw, FinalDocument(kind, t, p, rs, tw, pw),
                FinalDocument(kind, t, p, rs, tw', pw));
    }
  }

  lemma StopsInBoth(kind: string, t0: Json, t: Json, p: Json, rs: seq<string>, tw: seq<string>, tw': seq<string>,
                    n: nat)
    requires AllProper(rs) && SameWalk(t0, t, p, rs, tw, tw', n) && DropsMembersOnly(t, p)
    requires MismatchAmong(kind, t, p, rs, tw, |tw|)
    ensures TemplateLoop(kind, t, p, rs, tw) == TemplateLoop(kind, t, p, rs, tw')
  {
    hide SameWalk, DropsMembersOnly, MismatchAmong, TemplateLoop, AllProper, Lists, After, ChosenList;
    SameWalkMeans(t0, t, p, rs, tw, tw', n);
    MismatchInBoth(kind, t0, t, p, rs, tw, tw', n);
    LoopExact(kind, t, p, rs, tw, n);
    assert tw[..n] == tw'[..n];
    TemplateLoopStops(kind, t, p, rs, tw, n);
    TemplateLoopStops(kind, t, p, rs, tw', n);
  }
}
