/** Exactly which documents are merged in whatever order they are walked, and exactly which lead to the same result
    in all orders, merged or not: the raw prefix tests of both loops, as conditions on the documents alone. */
module Agreement {
  import opened Wrappers
  import opened Text
  import opened Documents
  import opened Pointers
  import opened Merging
  import opened Walking
  import opened Arranging
  import opened Preparing
  import opened Platform
  import opened Comparison
  import opened Changes
  import opened Laws
  import opened Hiding
  import opened Exactness
  import opened Choices
  import opened Orders
  import opened Overlooked

  // ---- empty strings that stay ----

  /** The empty string at y, which should be dropped, is there in the end. */
  ghost predicate Stays(t: Json, p: Json, rs: seq<string>, tw: seq<string>, pw: seq<string>, y: Position) {
    !DroppedAmong(t, p, rs, tw, |tw|, y) && !Taken(t, p, rs, tw, pw, |pw|, y)
  }

  lemma DroppedMeans(t0: Json, t: Json, p: Json, rs: seq<string>, y: Position)
    requires PreservedFrom(t0, t, p, rs) && Dropped(t, p, y)
    ensures y != [] && Has(t, y) && !Has(p, y) && Has(t0, y) && Unpreserved(y, rs)
    ensures Has(t, Parent(y)) && Has(p, Parent(y)) && Unpreserved(Parent(y), rs) && !Added(t, p, y)
  {
    hide Enc, Dec, Get, Unpreserved, PreservedFrom;
    if !Unpreserved(y, rs) { PreservedAgrees(t0, t, p, rs, y); }
    PreservedMeans(t0, t, p, rs);
    UnpreservedAbove(y, Parent(y), rs);
    GetPrefix(t, Parent(y), y);
  }

  /** Where a dropped position stands, and when it is dropped. */
  lemma DroppedIndex(t0: Json, t: Json, p: Json, rs: seq<string>, rank: Ranking, tw: seq<string>, n: nat, y: Position)
    returns (k: nat)
    requires PreservedFrom(t0, t, p, rs) && ChosenList(t0, t, p, rs, rank, tw, n) && Dropped(t, p, y)
    ensures k < n <= |tw| && tw[k] == Enc(y) && Dec(tw[k]) == y
    ensures DroppedAmong(t, p, rs, tw, |tw|, y) <==> !PassedBy(t, p, rs, tw, k) && !AnyPrefix(rs, Enc(y))
  {
    hide Enc, Dec, Get, PassedBy, PreservedFrom, DroppedAmong, Unpreserved, AnyPrefix, Dropped;
    DroppedMeans(t0, t, p, rs, y);
    k := ChosenIndex(t0, t, p, rs, rank, tw, n, y);
    ChosenLists(t0, t, p, rs, rank, tw, n);
    DroppedIff(t, p, rs, tw, k);
  }

  /** A copied collection above a dropped position is its parent, empty on the platform. */
  lemma TakenAboveDropped(t: Json, p: Json, rs: seq<string>, tw: seq<string>, pw: seq<string>, y: Position)
    returns (m: nat)
    requires Walks(t, p, rs, tw, pw) && Dropped(t, p, y) && Taken(t, p, rs, tw, pw, |pw|, y)
    ensures m < |pw| && Takes(t, p, rs, tw, pw, m) && Dec(pw[m]) == Parent(y) && pw[m] == Enc(Parent(y))
    ensures CommonEmpty(t, p, Parent(y))
  {
    hide Enc, Dec, Get, Seen, ToldBefore, Walks;
    m :| 0 <= m < |pw| && Takes(t, p, rs, tw, pw, m) && Dec(pw[m]) <= y;
    var w := Dec(pw[m]);
    PlatformPath(t, p, rs, tw, pw, m);
    assert w == y[..|w|] && w != y;
    assert w <= Parent(y);
    OnlyItself(p, w, Parent(y));
    GetPrefix(t, Parent(y), y);
  }

  /** In an order that leads to what hides y, if anything needs to, y is not dropped. */
  lemma NotDroppedThere(t0: Json, t: Json, p: Json, rs: seq<string>, x: Position, tw: seq<string>, n: nat, y: Position)
    requires PreservedFrom(t0, t, p, rs) && ChosenList(t0, t, p, rs, Leading(x, []), tw, n) && Dropped(t, p, y)
    requires AnyPrefix(rs, Enc(y)) || (AddsAt(t, p, rs, x) && Enc(x) <= Enc(y))
    ensures !DroppedAmong(t, p, rs, tw, |tw|, y)
  {
    hide Enc, Dec, Get, PassedBy, ChosenList, PreservedFrom, DroppedAmong, AnyPrefix, Added, Leading;
    var k := DroppedIndex(t0, t, p, rs, Leading(x, []), tw, n, y);
    if !AnyPrefix(rs, Enc(y)) {
      DroppedMeans(t0, t, p, rs, y);
      LeaderHides(t0, t, p, rs, x, [], x, y);
      HiddenThere(t0, t, p, rs, Leading(x, []), tw, n, x, y);
    }
  }

  /** Something that keeps y from being dropped: a preserved path, or an added position x, beside y if there is such. */
  ghost predicate Keeps(t: Json, p: Json, rs: seq<string>, x: Position, y: Position) {
    if AnyPrefix(rs, Enc(y)) then x == []
    else AddsAt(t, p, rs, x) && Enc(x) <= Enc(y) && (HiddenBySibling(t, p, rs, y) ==> Siblings(x, y))
  }

  lemma Keeper(t: Json, p: Json, rs: seq<string>, y: Position) returns (x: Position)
    requires AnyPrefix(rs, Enc(y)) || HiddenBySome(t, p, rs, y)
    ensures Keeps(t, p, rs, x, y)
  {
    hide AnyPrefix, AddsAt, Enc;
    x := [];
    if !AnyPrefix(rs, Enc(y)) {
      x :| AddsAt(t, p, rs, x) && x != y && Enc(x) <= Enc(y);
      if HiddenBySibling(t, p, rs, y) { x :| AddsAt(t, p, rs, x) && Siblings(x, y) && x != y && Enc(x) <= Enc(y); }
    }
  }

  /** What may stay stays in some order. */
  lemma StayingOrder(t0: Json, t: Json, p: Json, rs: seq<string>, y: Position)
    returns (tw: seq<string>, pw: seq<string>)
    requires PreservedFrom(t0, t, p, rs) && PlainAnnotations(p) && KeepsMembersOnly(t, p)
    requires Dropped(t, p, y) && y != [] && MayStay(t0, t, p, rs, y)
    ensures Possible(t0, t, p, rs, tw, pw) && Walks(t, p, rs, tw, pw) && Stays(t, p, rs, tw, pw, y)
  {
    hide Enc, Dec, Get, Possible, ChosenList, Walks, PreservedFrom, AnyPrefix, AddsAt, Leading, ToldAtAll, Taken,
      HiddenAlways, HiddenBySome, HiddenBySibling, Dropped, Stays, Keeps, PlainAnnotations, KeepsMembersOnly;
    var x := Keeper(t, p, rs, y);
    if CommonEmpty(t, p, Parent(y)) && ToldAtAll(t, p, rs, Parent(y)) {
      tw, pw := StayingTold(t0, t, p, rs, x, y);
    } else {
      tw, pw := StayingUncopied(t0, t, p, rs, x, y);
    }
  }

  /** It stays where its parent is not copied since something is told before it. */
  lemma StayingTold(t0: Json, t: Json, p: Json, rs: seq<string>, c: Position, y: Position)
    returns (tw: seq<string>, pw: seq<string>)
    requires PreservedFrom(t0, t, p, rs) && PlainAnnotations(p) && KeepsMembersOnly(t, p) && Dropped(t, p, y)
    requires y != [] && Keeps(t, p, rs, c, y) && ToldAtAll(t, p, rs, Parent(y))
    ensures Possible(t0, t, p, rs, tw, pw) && Walks(t, p, rs, tw, pw) && Stays(t, p, rs, tw, pw, y)
  {
    hide Enc, Dec, Get, Possible, ChosenList, Walks, PreservedFrom, AnyPrefix, AddsAt, Leading, ToldAtAll, Seen,
      ToldBefore, Taken, HiddenBySibling, Dropped, DroppedAmong;
    EncPrefixOfDescendant(Parent(y), y);
    var n, x;
    tw, n, pw, x := TellingOrder(t0, t, p, rs, Parent(y), c);
    NotDroppedThere(t0, t, p, rs, x, tw, n, y);
    if Taken(t, p, rs, tw, pw, |pw|, y) { var m := TakenAboveDropped(t, p, rs, tw, pw, y); }
  }

  /** It stays where its parent is compared, or is nothing that could be copied. */
  lemma StayingUncopied(t0: Json, t: Json, p: Json, rs: seq<string>, x: Position, y: Position)
    returns (tw: seq<string>, pw: seq<string>)
    requires PreservedFrom(t0, t, p, rs) && PlainAnnotations(p) && KeepsMembersOnly(t, p) && Dropped(t, p, y)
    requires y != [] && Keeps(t, p, rs, x, y)
    requires CommonEmpty(t, p, Parent(y)) ==>
               && !HiddenAlways(t0, t, p, rs, Parent(y))
               && (AnyPrefix(rs, Enc(y)) || HiddenBySibling(t, p, rs, y))
    ensures Possible(t0, t, p, rs, tw, pw) && Walks(t, p, rs, tw, pw) && Stays(t, p, rs, tw, pw, y)
  {
    hide Enc, Dec, Get, Possible, ChosenList, Walks, PreservedFrom, AnyPrefix, AddsAt, Leading, Seen, ToldBefore, Taken,
      HiddenBySibling, HiddenAlways, Dropped, DroppedAmong, Walkable;
    var n;
    tw, n := ChooseList(t0, t, p, rs, Leading(x, []));
    pw := WholeRankedWalk(p, NoRank);
    OrderedWalks(t0, t, p, rs, Leading(x, []), tw, n, pw);
    NotDroppedThere(t0, t, p, rs, x, tw, n, y);
    if CommonEmpty(t, p, Parent(y)) { ParentIsSeen(t0, t, p, rs, x, tw, n, y); }
    if Taken(t, p, rs, tw, pw, |pw|, y) { var m := TakenAboveDropped(t, p, rs, tw, pw, y); }
  }

  /** In an order that leads to a sibling of y, or nowhere, the parent of y is compared if it is not always hidden. */
  lemma ParentIsSeen(t0: Json, t: Json, p: Json, rs: seq<string>, x: Position, tw: seq<string>, n: nat, y: Position)
    requires PreservedFrom(t0, t, p, rs) && ChosenList(t0, t, p, rs, Leading(x, []), tw, n) && Dropped(t, p, y)
    requires x == [] || Siblings(x, y)
    requires Parent(y) != [] && !HiddenAlways(t0, t, p, rs, Parent(y))
    ensures Seen(t, p, rs, tw, Enc(Parent(y)))
  {
    hide Enc, Dec, Get, ChosenList, PreservedFrom, AnyPrefix, AddsAt, Leading, Seen, HiddenAlways, Dropped, PassedBy;
    DroppedMeans(t0, t, p, rs, y);
    var z := Parent(y);
    GetPrefix(p, Parent(z), z);
    forall a | AddsAt(t, p, rs, a) && a <= x && a != z ensures !(Enc(a) <= Enc(z)) {
      AddedMeans(t0, t, p, rs, a);
      if Enc(a) <= Enc(z) { BesideOrAbove(a, z); }
      assert a == x[..|a|] && x[..|a|] == (if |a| <= |z| then z[..|a|] else x);
      if |a| <= |z| { GetPrefix(p, a, z); }
    }
    SparedIsSeen(t0, t, p, rs, x, [], tw, n, z);
  }

  /** What need not stay is dropped in some order, or covered by a copy. */
  lemma LeavingOrder(t0: Json, t: Json, p: Json, rs: seq<string>, y: Position)
    returns (tw: seq<string>, pw: seq<string>)
    requires PreservedFrom(t0, t, p, rs) && PlainAnnotations(p) && KeepsMembersOnly(t, p)
    requires Dropped(t, p, y) && y != [] && !MustStay(t0, t, p, rs, y)
    ensures Possible(t0, t, p, rs, tw, pw) && Walks(t, p, rs, tw, pw) && !Stays(t, p, rs, tw, pw, y)
  {
    hide Enc, Dec, Get, Possible, ChosenList, Walks, PreservedFrom, AnyPrefix, Leading, HiddenAlways, Dropped,
      HiddenBySibling, ToldAlways, DroppedAmong, PassedBy, Takes, Walkable, Seen, Unpreserved;
    if !AnyPrefix(rs, Enc(y)) && !HiddenAlways(t0, t, p, rs, y) {
      DroppedMeans(t0, t, p, rs, y);
      var n;
      tw, n := ChooseList(t0, t, p, rs, Leading([], []));
      pw := WholeRankedWalk(p, NoRank);
      OrderedWalks(t0, t, p, rs, Leading([], []), tw, n, pw);
      SparedFromTheRoot(t0, t, p, rs, tw, n, y);
      var k := DroppedIndex(t0, t, p, rs, Leading([], []), tw, n, y);
    } else {
      var m;
      tw, pw, m := CopyingOrder(t0, t, p, rs, Parent(y));
      assert Parent(y) <= y;
    }
  }

  /** What stays in some order may stay. */
  lemma StayedMayStay(t0: Json, t: Json, p: Json, rs: seq<string>, tw: seq<string>, pw: seq<string>, y: Position)
    requires PreservedFrom(t0, t, p, rs) && Possible(t0, t, p, rs, tw, pw) && Walks(t, p, rs, tw, pw)
    requires Dropped(t, p, y) && y != [] && Stays(t, p, rs, tw, pw, y)
    ensures MayStay(t0, t, p, rs, y)
  {
    hide Enc, Dec, Get, Possible, ChosenList, Walks, PreservedFrom, AnyPrefix, AddsAt, HiddenBySome, Dropped,
      DroppedAmong, PassedBy, CopiedAround, Taken;
    var n := PossibleIsChosen(t0, t, p, rs, tw, pw);
    var k := DroppedIndex(t0, t, p, rs, NoRank, tw, n, y);
    if PassedBy(t, p, rs, tw, k) { var i := HiddenBefore(t, p, rs, tw, k); }
    if CopiedAround(t0, t, p, rs, y) { CopiedWithParent(t0, t, p, rs, tw, pw, n, k, y); }
  }

  lemma CopiedWithParent(t0: Json, t: Json, p: Json, rs: seq<string>, tw: seq<string>, pw: seq<string>, n: nat, k: nat,
                         y: Position)
    requires PreservedFrom(t0, t, p, rs) && ChosenList(t0, t, p, rs, NoRank, tw, n) && Walks(t, p, rs, tw, pw)
    requires Dropped(t, p, y) && y != [] && k < n <= |tw| && tw[k] == Enc(y) && Dec(tw[k]) == y
    requires (PassedBy(t, p, rs, tw, k) || AnyPrefix(rs, Enc(y))) && CopiedAround(t0, t, p, rs, y)
    ensures Taken(t, p, rs, tw, pw, |pw|, y)
  {
    hide Enc, Dec, Get, ChosenList, Walks, PreservedFrom, AnyPrefix, Dropped, PassedBy, ToldAtAll, ToldBefore, Seen,
      HiddenBySibling, HiddenAlways;
    var z := Parent(y);
    var m := PlatformIndex(t, p, rs, tw, pw, z);
    if ToldBefore(t, p, rs, tw, pw, m, pw[m]) { ToldIsTellable(t, p, rs, tw, pw, m); }
    if HiddenAlways(t0, t, p, rs, z) {
      HiddenIsNotSeen(t0, t, p, rs, NoRank, tw, n, z);
    } else {
      ParentIsHidden(t0, t, p, rs, tw, n, k, y);
    }
    assert Takes(t, p, rs, tw, pw, m) && z <= y;
  }

  /** Without a sibling that hides y, whatever hides y hides its parent, too. */
  lemma ParentIsHidden(t0: Json, t: Json, p: Json, rs: seq<string>, tw: seq<string>, n: nat, k: nat, y: Position)
    requires PreservedFrom(t0, t, p, rs) && ChosenList(t0, t, p, rs, NoRank, tw, n)
    requires Dropped(t, p, y) && y != [] && k < n <= |tw| && tw[k] == Enc(y) && Dec(tw[k]) == y
    requires PassedBy(t, p, rs, tw, k) && !HiddenBySibling(t, p, rs, y)
    ensures !Seen(t, p, rs, tw, Enc(Parent(y)))
  {
    hide Enc, Dec, Get, ChosenList, PreservedFrom, AnyPrefix, Dropped, PassedBy, Seen, AddsAt, Unpreserved;
    DroppedMeans(t0, t, p, rs, y);
    ChosenLists(t0, t, p, rs, NoRank, tw, n);
    var i := HiddenBefore(t, p, rs, tw, k);
    HiddenTogether(t0, t, p, rs, tw, n, i, k);
    var x := Dec(tw[i]);
    AddedMeans(t0, t, p, rs, x);
    assert |x| == |y| ==> Siblings(x, y);
    assert Parent(y)[..|x|] == y[..|x|];
    EncPrefixOfDescendant(y[..|x|], Parent(y));
    HiddenOnTheWay(t0, t, p, rs, tw, n, i, k, Parent(y));
  }

  /** What must stay stays in every order. */
  lemma StaysInEveryOrder(t0: Json, t: Json, p: Json, rs: seq<string>, tw: seq<string>, pw: seq<string>, y: Position)
    requires PreservedFrom(t0, t, p, rs) && Possible(t0, t, p, rs, tw, pw) && Walks(t, p, rs, tw, pw)
    requires Dropped(t, p, y) && y != [] && MustStay(t0, t, p, rs, y)
    ensures Stays(t, p, rs, tw, pw, y)
  {
    hide Enc, Dec, Get, Possible, ChosenList, Walks, PreservedFrom, AnyPrefix, AddsAt, Dropped, DroppedAmong, PassedBy,
      Taken, MayCopy, Takes, Unpreserved, Seen, InList;
    DroppedMeans(t0, t, p, rs, y);
    var n := PossibleIsChosen(t0, t, p, rs, tw, pw);
    var k := DroppedIndex(t0, t, p, rs, NoRank, tw, n, y);
    if !AnyPrefix(rs, Enc(y)) {
      var x :| AddsAt(t, p, rs, x) && x != y && Enc(x) <= Enc(y) && (InList(t, x) || !Has(t0, y));
      HiddenThere(t0, t, p, rs, NoRank, tw, n, x, y);
    }
    if Taken(t, p, rs, tw, pw, |pw|, y) {
      var m := TakenAboveDropped(t, p, rs, tw, pw, y);
      CopiedIsCopyable(t0, t, p, rs, tw, pw, m);
    }
  }

  // ---- the same result in all orders ----

  /** Each position comes out as merging has it, in every order. */
  ghost predicate NothingAtRisk(t0: Json, t: Json, p: Json, rs: seq<string>) {
    && (forall y :: Dropped(t, p, y) ==> !MayStay(t0, t, p, rs, y))
    && (forall w :: Kept(t, p, w) ==> !ToldAtAll(t, p, rs, w))
    && (forall w :: CommonEmpty(t, p, w) && MayCopy(t0, t, p, rs, w) ==> CopyAgrees(t, p, w))
  }

  /** Each position comes out the same in every order. */
  ghost predicate NothingOpen(t0: Json, t: Json, p: Json, rs: seq<string>) {
    && (forall y :: Dropped(t, p, y) && MayStay(t0, t, p, rs, y) ==> MustStay(t0, t, p, rs, y))
    && (forall w :: Kept(t, p, w) && ToldAtAll(t, p, rs, w) ==> ToldAlways(t0, t, p, rs, w))
    && (forall w :: CommonEmpty(t, p, w) && MayCopy(t0, t, p, rs, w) && MaySkip(t0, t, p, rs, w) ==>
                      CopyAgrees(t, p, w))
  }

  /** The documents are merged in every order. */
  ghost predicate Robust(kind: string, t0: Json, t: Json, p: Json, rs: seq<string>) {
    (forall q :: !OpenMismatch(kind, t, p, rs, q)) && NothingAtRisk(t0, t, p, rs)
  }

  /** All orders agree: some mismatch is found in every order, or there is none and nothing is left open. */
  ghost predicate Settled(kind: string, t0: Json, t: Json, p: Json, rs: seq<string>) {
    || (exists q :: OpenMismatch(kind, t, p, rs, q) && !HiddenBySome(t, p, rs, q))
    || ((forall q :: !OpenMismatch(kind, t, p, rs, q)) && NothingOpen(t0, t, p, rs))
  }

  /** Two comparisons end alike: both stop at an immutable field, or both have the same result. */
  ghost predicate EndAlike(allowRecreate: bool, r: Outcome, r': Outcome) {
    r == r' || (StopsAtField(allowRecreate, r) && StopsAtField(allowRecreate, r'))
  }

  // ---- merged in every order ----

  lemma NotAtRiskInAnyOrder(t0: Json, t: Json, p: Json, rs: seq<string>, tw: seq<string>, pw: seq<string>)
    requires PreservedFrom(t0, t, p, rs) && Possible(t0, t, p, rs, tw, pw) && Walks(t, p, rs, tw, pw)
    requires NothingAtRisk(t0, t, p, rs)
    ensures NothingSpoiled(t, p, rs, tw, pw)
  {
    hide Enc, Dec, Get, Possible, Walks, PreservedFrom, Dropped, LeftAlone, Taken, Takes, ToldBefore, ToldAtAll,
      MayStay, CopyAgrees, MayCopy, CommonEmpty, Unpreserved;
    forall k | 0 <= k < |tw| && Dropped(t, p, Dec(tw[k])) && LeftAlone(t, p, rs, tw, k)
      ensures Taken(t, p, rs, tw, pw, |pw|, Dec(tw[k]))
    {
      DroppedMeans(t0, t, p, rs, Dec(tw[k]));
      LeftAloneIsTaken(t0, t, p, rs, tw, pw, k);
    }
    forall m | 0 <= m < |pw| && Kept(t, p, Dec(pw[m])) ensures !ToldBefore(t, p, rs, tw, pw, m, pw[m]) {
      if ToldBefore(t, p, rs, tw, pw, m, pw[m]) { ToldIsTellable(t, p, rs, tw, pw, m); }
    }
    forall m | 0 <= m < |pw| && Takes(t, p, rs, tw, pw, m) ensures CopyAgrees(t, p, Dec(pw[m])) {
      CopyableAgrees(t0, t, p, rs, tw, pw, m);
    }
  }

  lemma LeftAloneIsTaken(t0: Json, t: Json, p: Json, rs: seq<string>, tw: seq<string>, pw: seq<string>, k: nat)
    requires PreservedFrom(t0, t, p, rs) && Possible(t0, t, p, rs, tw, pw) && Walks(t, p, rs, tw, pw)
    requires k < |tw| && Dropped(t, p, Dec(tw[k])) && LeftAlone(t, p, rs, tw, k) && Dec(tw[k]) != []
    requires !MayStay(t0, t, p, rs, Dec(tw[k]))
    ensures Taken(t, p, rs, tw, pw, |pw|, Dec(tw[k]))
  {
    hide Enc, Dec, Get, Possible, Walks, PreservedFrom, Dropped, LeftAlone, Taken, MayStay, Lists, DroppedAmong;
    ListsOfWalks(t, p, rs, tw, pw);
    DroppedIff(t, p, rs, tw, k);
    if !Taken(t, p, rs, tw, pw, |pw|, Dec(tw[k])) { StayedMayStay(t0, t, p, rs, tw, pw, Dec(tw[k])); }
  }

  /** What is copied agrees, if it does where a copy of something common is possible. */
  lemma CopyableAgrees(t0: Json, t: Json, p: Json, rs: seq<string>, tw: seq<string>, pw: seq<string>, m: nat)
    requires PreservedFrom(t0, t, p, rs) && Possible(t0, t, p, rs, tw, pw) && Walks(t, p, rs, tw, pw)
    requires m < |pw| && Takes(t, p, rs, tw, pw, m)
    requires CommonEmpty(t, p, Dec(pw[m])) && MayCopy(t0, t, p, rs, Dec(pw[m])) ==> CopyAgrees(t, p, Dec(pw[m]))
    ensures CopyAgrees(t, p, Dec(pw[m]))
  {
    hide Enc, Dec, Get, Possible, Walks, PreservedFrom, Seen, ToldBefore, MayCopy, Unpreserved, Merge;
    var w := Dec(pw[m]);
    PlatformPath(t, p, rs, tw, pw, m);
    if Has(t, w) {
      if Unpreserved(w, rs) {
        CopiedIsCopyable(t0, t, p, rs, tw, pw, m);
      } else {
        PreservedAgrees(t0, t, p, rs, w);
        MergeSelf(Get(p, w).value);
      }
    }
  }

  lemma AtRiskInSomeOrder(t0: Json, t: Json, p: Json, rs: seq<string>)
    requires PreservedFrom(t0, t, p, rs) && PlainAnnotations(p) && KeepsMembersOnly(t, p)
    requires forall tw, pw :: Possible(t0, t, p, rs, tw, pw) ==> NothingSpoiled(t, p, rs, tw, pw)
    ensures NothingAtRisk(t0, t, p, rs)
  {
    hide Enc, Dec, Get, Possible, Walks, PreservedFrom, Taken, Takes, ToldAtAll, MayStay, CopyAgrees, ToldAlways,
      HiddenBySibling, PlainAnnotations, KeepsMembersOnly, DroppedAmong, NothingSpoiled;
    forall y | Dropped(t, p, y) ensures !MayStay(t0, t, p, rs, y) {
      if MayStay(t0, t, p, rs, y) {
        var tw, pw := StayingOrder(t0, t, p, rs, y);
        StayingSpoils(t0, t, p, rs, tw, pw, y);
      }
    }
    forall w | Kept(t, p, w) ensures !ToldAtAll(t, p, rs, w) {
      if ToldAtAll(t, p, rs, w) {
        var tw, n, pw, x := TellingOrder(t0, t, p, rs, w, []);
        TellingSpoils(t, p, rs, tw, pw, w);
      }
    }
    forall w | CommonEmpty(t, p, w) && MayCopy(t0, t, p, rs, w) ensures CopyAgrees(t, p, w) {
      var tw, pw, m := CopyingOrder(t0, t, p, rs, w);
      UnspoiledAgrees(t, p, rs, tw, pw, m);
    }
  }

  lemma StayingSpoils(t0: Json, t: Json, p: Json, rs: seq<string>, tw: seq<string>, pw: seq<string>, y: Position)
    requires PreservedFrom(t0, t, p, rs) && Possible(t0, t, p, rs, tw, pw)
    requires Dropped(t, p, y) && Stays(t, p, rs, tw, pw, y)
    ensures !NothingSpoiled(t, p, rs, tw, pw)
  {
    hide Enc, Dec, Get, Possible, PreservedFrom, Taken, Takes, DroppedAmong, Dropped, PassedBy, AnyPrefix, ChosenList;
    var n := PossibleIsChosen(t0, t, p, rs, tw, pw);
    var k := DroppedIndex(t0, t, p, rs, NoRank, tw, n, y);
    assert LeftAlone(t, p, rs, tw, k);
  }

  lemma TellingSpoils(t: Json, p: Json, rs: seq<string>, tw: seq<string>, pw: seq<string>, w: Position)
    requires Walks(t, p, rs, tw, pw) && Kept(t, p, w)
    requires forall m :: 0 <= m < |pw| && Dec(pw[m]) == w ==> ToldBefore(t, p, rs, tw, pw, m, pw[m])
    ensures !NothingSpoiled(t, p, rs, tw, pw)
  {
    hide Enc, Dec, Get, Walks, Taken, Takes, ToldBefore;
    var m := PlatformIndex(t, p, rs, tw, pw, w);
  }

  lemma UnspoiledAgrees(t: Json, p: Json, rs: seq<string>, tw: seq<string>, pw: seq<string>, m: nat)
    requires NothingSpoiled(t, p, rs, tw, pw) && m < |pw| && Takes(t, p, rs, tw, pw, m)
    ensures CopyAgrees(t, p, Dec(pw[m]))
  {
    hide Takes, Taken, CopyAgrees;
  }

  ghost predicate NeverStops(kind: string, t0: Json, t: Json, p: Json, rs: seq<string>) {
    forall tw, pw :: Possible(t0, t, p, rs, tw, pw) ==> !MismatchAmong(kind, t, p, rs, tw, |tw|)
  }

  ghost predicate NeverSpoiled(t0: Json, t: Json, p: Json, rs: seq<string>) {
    forall tw, pw :: Possible(t0, t, p, rs, tw, pw) ==> NothingSpoiled(t, p, rs, tw, pw)
  }

  lemma NeverSpoiledExactlyIf(t0: Json, t: Json, p: Json, rs: seq<string>)
    requires PreservedFrom(t0, t, p, rs) && PlainAnnotations(p) && KeepsMembersOnly(t, p)
    ensures NeverSpoiled(t0, t, p, rs) <==> NothingAtRisk(t0, t, p, rs)
  {
    hide Possible, NothingSpoiled, PlainAnnotations, KeepsMembersOnly, NothingAtRisk, PreservedFrom, Walks;
    if NeverSpoiled(t0, t, p, rs) { AtRiskInSomeOrder(t0, t, p, rs); }
    if NothingAtRisk(t0, t, p, rs) {
      forall tw, pw | Possible(t0, t, p, rs, tw, pw) ensures NothingSpoiled(t, p, rs, tw, pw) {
        PossibleWalks(t0, t, p, rs, tw, pw);
        NotAtRiskInAnyOrder(t0, t, p, rs, tw, pw);
      }
    }
  }

  /** The refinement for all orders, exactly: every order in which the two documents can be walked makes the
      comparison end with one change to the merged document if and only if the documents are robust. */
  lemma AlwaysMergedExactlyIf(kind: string, name: string, pKind: string, pName: string, t0: Json, t: Json, p: Json,
                              rs: seq<string>, allowRecreate: bool)
    requires PreservedFrom(t0, t, p, rs) && PlainAnnotations(p) && DropsMembersOnly(t, p) && KeepsMembersOnly(t, p)
    ensures (forall tw, pw | Possible(t0, t, p, rs, tw, pw) ::
               LoopsOutcome(kind, name, pKind, pName, t, p, rs, tw, pw, allowRecreate) ==
               Success([NewChange(kind, name, Merge(t, p), p)]))
       <==> Robust(kind, t0, t, p, rs)
  {
    hide *;
    NeverStopsExactlyIf(kind, t0, t, p, rs);
    NeverSpoiledExactlyIf(t0, t, p, rs);
    RobustMeans(kind, t0, t, p, rs);
    forall tw, pw | Possible(t0, t, p, rs, tw, pw)
      ensures LoopsOutcome(kind, name, pKind, pName, t, p, rs, tw, pw, allowRecreate) ==
              Success([NewChange(kind, name, Merge(t, p), p)])
         <==> !MismatchAmong(kind, t, p, rs, tw, |tw|) && NothingSpoiled(t, p, rs, tw, pw)
    {
      PossibleWalks(t0, t, p, rs, tw, pw);
      OutcomeIsMergeExactlyIf(kind, name, pKind, pName, t, p, rs, tw, pw, allowRecreate);
    }
    NeverMeans(kind, t0, t, p, rs);
  }

  lemma RobustMeans(kind: string, t0: Json, t: Json, p: Json, rs: seq<string>)
    ensures Robust(kind, t0, t, p, rs) <==>
            (forall q :: !OpenMismatch(kind, t, p, rs, q)) && NothingAtRisk(t0, t, p, rs)
  {
    hide OpenMismatch, NothingAtRisk;
  }

  lemma NeverMeans(kind: string, t0: Json, t: Json, p: Json, rs: seq<string>)
    ensures NeverStops(kind, t0, t, p, rs) && NeverSpoiled(t0, t, p, rs) <==>
            forall tw, pw :: Possible(t0, t, p, rs, tw, pw) ==>
                               !MismatchAmong(kind, t, p, rs, tw, |tw|) && NothingSpoiled(t, p, rs, tw, pw)
  {
    hide Possible, MismatchAmong, NothingSpoiled;
  }

  ghost predicate AlwaysStops(kind: string, t0: Json, t: Json, p: Json, rs: seq<string>) {
    forall tw, pw :: Possible(t0, t, p, rs, tw, pw) ==> MismatchAmong(kind, t, p, rs, tw, |tw|)
  }

  lemma NeverStopsExactlyIf(kind: string, t0: Json, t: Json, p: Json, rs: seq<string>)
    requires PreservedFrom(t0, t, p, rs)
    ensures NeverStops(kind, t0, t, p, rs) <==> forall q :: !OpenMismatch(kind, t, p, rs, q)
    ensures AlwaysStops(kind, t0, t, p, rs) <==>
            exists q :: OpenMismatch(kind, t, p, rs, q) && !HiddenBySome(t, p, rs, q)
  {
    hide MismatchAmong, OpenMismatch, HiddenBySome, PreservedFrom, PreparedList, NeverStops, AlwaysStops;
    MismatchesOverlookedExactlyIf(kind, t0, t, p, rs);
    StopsInLists(kind, t0, t, p, rs);
  }

  /** Whether a comparison stops depends on the template's path list only. */
  lemma StopsInLists(kind: string, t0: Json, t: Json, p: Json, rs: seq<string>)
    ensures NeverStops(kind, t0, t, p, rs) <==>
            forall tw :: PreparedList(tw, t0, t, p, rs) ==> !MismatchAmong(kind, t, p, rs, tw, |tw|)
    ensures AlwaysStops(kind, t0, t, p, rs) <==>
            forall tw :: PreparedList(tw, t0, t, p, rs) ==> MismatchAmong(kind, t, p, rs, tw, |tw|)
  {
    hide PreparedList, Walkable, MismatchAmong;
    var pw := WholeRankedWalk(p, NoRank);
    forall tw | PreparedList(tw, t0, t, p, rs) ensures Possible(t0, t, p, rs, tw, pw) {}
  }

  // ---- alike in every order ----

  /** What is copied at or below an empty collection of the platform is that collection. */
  lemma TakenHere(t: Json, p: Json, rs: seq<string>, tw: seq<string>, pw: seq<string>, w: Position, q: Position)
    returns (m: nat)
    requires Walks(t, p, rs, tw, pw) && Has(p, w) && EmptyCollection(Get(p, w).value) && w <= q
    requires Taken(t, p, rs, tw, pw, |pw|, q)
    ensures m < |pw| && Takes(t, p, rs, tw, pw, m) && Dec(pw[m]) == w
  {
    hide Enc, Dec, Get, Walks, Seen, ToldBefore;
    m :| 0 <= m < |pw| && Takes(t, p, rs, tw, pw, m) && Dec(pw[m]) <= q;
    PlatformPath(t, p, rs, tw, pw, m);
    PrefixesOfOne(Dec(pw[m]), w, q);
    OnlyItself(p, Dec(pw[m]), w);
    OnlyItself(p, w, Dec(pw[m]));
  }

  /** Something copied in one order that is not copied in another is a common empty collection whose copy agrees. */
  lemma CopiedInOne(t0: Json, t: Json, p: Json, rs: seq<string>, tw: seq<string>, pw: seq<string>, m: nat,
                    tw': seq<string>, pw': seq<string>)
    requires PreservedFrom(t0, t, p, rs) && NothingOpen(t0, t, p, rs)
    requires Possible(t0, t, p, rs, tw, pw) && Walks(t, p, rs, tw, pw)
    requires Possible(t0, t, p, rs, tw', pw') && Walks(t, p, rs, tw', pw')
    requires m < |pw| && Takes(t, p, rs, tw, pw, m) && !Taken(t, p, rs, tw', pw', |pw'|, Dec(pw[m]))
    ensures CommonEmpty(t, p, Dec(pw[m])) && CopyAgrees(t, p, Dec(pw[m]))
  {
    hide Enc, Dec, Get, Possible, Walks, PreservedFrom, Seen, ToldBefore, MayCopy, MaySkip, MayStay, MustStay,
      CopyAgrees, ToldAtAll, ToldAlways, Dropped;
    var w := Dec(pw[m]);
    PlatformPath(t, p, rs, tw, pw, m);
    var m' := PlatformIndex(t, p, rs, tw', pw', w);
    assert !Takes(t, p, rs, tw', pw', m');
    if Has(t, w) {
      SkippedIsSkippable(t0, t, p, rs, tw', pw', m');
      CopyableAgrees(t0, t, p, rs, tw, pw, m);
    } else {
      ListsOfWalks(t, p, rs, tw', pw');
      NotSeen(t, p, rs, tw', w);
      ToldIsTellable(t, p, rs, tw', pw', m');
      if !Has(t, Parent(w)) { ParentTold(t, p, rs, tw, pw, m); }
      GetPrefix(p, Parent(w), w);
      assert Kept(t, p, w);
      ToldInEveryOrder(t0, t, p, rs, tw, pw, m);
    }
  }

  lemma TakenDown(t: Json, p: Json, rs: seq<string>, tw: seq<string>, pw: seq<string>, w: Position, q: Position)
    requires w <= q
    ensures Taken(t, p, rs, tw, pw, |pw|, w) ==> Taken(t, p, rs, tw, pw, |pw|, q)
  {
    hide Dec, Takes;
  }

  /** Then there is the same below it in both. */
  lemma SameBelowCopy(t0: Json, t: Json, p: Json, rs: seq<string>, tw: seq<string>, pw: seq<string>, m: nat,
                      tw': seq<string>, pw': seq<string>, q: Position)
    requires PreservedFrom(t0, t, p, rs) && NothingOpen(t0, t, p, rs)
    requires Possible(t0, t, p, rs, tw, pw) && Walks(t, p, rs, tw, pw)
    requires Possible(t0, t, p, rs, tw', pw') && Walks(t, p, rs, tw', pw')
    requires m < |pw| && Takes(t, p, rs, tw, pw, m) && Dec(pw[m]) <= q && !Taken(t, p, rs, tw', pw', |pw'|, q)
    ensures LabelAt(p, q) == if DroppedAmong(t, p, rs, tw', |tw'|, q) then None else LabelAt(t, q)
  {
    hide Enc, Dec, Get, Possible, Walks, PreservedFrom, Takes, MayStay, MustStay, CopyAgrees, ToldAtAll, ToldAlways,
      Dropped, DroppedAmong, Merge, NothingOpen;
    var w := Dec(pw[m]);
    TakenDown(t, p, rs, tw', pw', w, q);
    CopiedInOne(t0, t, p, rs, tw, pw, m, tw', pw');
    NeverDropped(t, p, rs, tw', |tw'|, q);
    if q == w {
      LabelHere(t, p, w);
      HereIsNotDropped(t, p, q);
    } else {
      BelowEmpty(p, w, q);
      if Has(t, q) {
        CoveredIsDropped(t, p, w, q);
        assert Taken(t, p, rs, tw, pw, |pw|, q);
        DroppedAlike(t0, t, p, rs, tw, pw, tw', pw', q);
      }
    }
  }

  lemma LabelHere(t: Json, p: Json, w: Position)
    requires CommonEmpty(t, p, w) && CopyAgrees(t, p, w)
    ensures LabelAt(t, w) == LabelAt(p, w)
  {
  }

  lemma HereIsNotDropped(t: Json, p: Json, q: Position)
    requires Has(p, q)
    ensures !Dropped(t, p, q)
  {
  }

  /** Where a copy agrees, it covers nothing but empty strings that are dropped. */
  lemma CoveredIsDropped(t: Json, p: Json, w: Position, q: Position)
    requires CommonEmpty(t, p, w) && CopyAgrees(t, p, w) && w < q && Has(t, q)
    ensures Dropped(t, p, q) && Parent(q) == w && Get(t, w).value.Obj?
  {
    hide Get, Merge;
    var y := q[..|w| + 1];
    assert Parent(y) == w && q[..|q|] == q;
    GetPrefix(t, y, q);
    GetLast(t, y);
    NothingStaysOfIt(Get(t, w).value, Get(p, w).value, y[|w|]);
    if y != q { NotEmpty(t, y, q); }
    BelowEmpty(p, w, q);
  }

  lemma NothingStaysOfIt(t: Json, p: Json, k: string)
    requires EmptyCollection(p) && Merge(t, p) == p && HasChild(t, k)
    ensures t.Obj? && Child(t, k) == Str("")
  {
    ChildOfMerge(t, p, k);
  }

  /** Where nothing is open, an empty string that does not stay in one order does not stay in another. */
  lemma DroppedAlike(t0: Json, t: Json, p: Json, rs: seq<string>, tw: seq<string>, pw: seq<string>, tw': seq<string>,
                     pw': seq<string>, q: Position)
    requires PreservedFrom(t0, t, p, rs) && NothingOpen(t0, t, p, rs) && Dropped(t, p, q)
    requires Possible(t0, t, p, rs, tw, pw) && Walks(t, p, rs, tw, pw)
    requires Possible(t0, t, p, rs, tw', pw') && Walks(t, p, rs, tw', pw')
    ensures Stays(t, p, rs, tw, pw, q) <==> Stays(t, p, rs, tw', pw', q)
  {
    hide Enc, Dec, Get, Possible, Walks, PreservedFrom, MayStay, MustStay, CopyAgrees, ToldAtAll, ToldAlways, Dropped,
      Stays, MayCopy, MaySkip, CommonEmpty, Unpreserved;
    DroppedMeans(t0, t, p, rs, q);
    if Stays(t, p, rs, tw, pw, q) {
      StayedMayStay(t0, t, p, rs, tw, pw, q);
      StaysInEveryOrder(t0, t, p, rs, tw', pw', q);
    }
    if Stays(t, p, rs, tw', pw', q) {
      StayedMayStay(t0, t, p, rs, tw', pw', q);
      StaysInEveryOrder(t0, t, p, rs, tw, pw, q);
    }
  }

  /** What is at a position in the end. */
  ghost function EndLabel(t: Json, p: Json, rs: seq<string>, tw: seq<string>, pw: seq<string>, q: Position)
    : Option<Label> {
    if Taken(t, p, rs, tw, pw, |pw|, q) then LabelAt(p, q)
    else if DroppedAmong(t, p, rs, tw, |tw|, q) then None
    else LabelAt(t, q)
  }

  lemma SameLabelInBoth(t0: Json, t: Json, p: Json, rs: seq<string>, tw: seq<string>, pw: seq<string>, tw': seq<string>,
                        pw': seq<string>, q: Position)
    requires PreservedFrom(t0, t, p, rs) && NothingOpen(t0, t, p, rs)
    requires Possible(t0, t, p, rs, tw, pw) && Walks(t, p, rs, tw, pw)
    requires Possible(t0, t, p, rs, tw', pw') && Walks(t, p, rs, tw', pw')
    ensures EndLabel(t, p, rs, tw, pw, q) == EndLabel(t, p, rs, tw', pw', q)
  {
    hide Get, Possible, Walks, PreservedFrom, DroppedAmong, NothingOpen, Dropped, Taken;
    if Taken(t, p, rs, tw, pw, |pw|, q) != Taken(t, p, rs, tw', pw', |pw'|, q) {
      if Taken(t, p, rs, tw, pw, |pw|, q) {
        SameUnderCopy(t0, t, p, rs, tw, pw, tw', pw', q);
      } else {
        SameUnderCopy(t0, t, p, rs, tw', pw', tw, pw, q);
      }
    } else {
      NeverDropped(t, p, rs, tw, |tw|, q);
      NeverDropped(t, p, rs, tw', |tw'|, q);
      if Dropped(t, p, q) { DroppedAlike(t0, t, p, rs, tw, pw, tw', pw', q); }
    }
  }

  lemma SameUnderCopy(t0: Json, t: Json, p: Json, rs: seq<string>, tw: seq<string>, pw: seq<string>, tw': seq<string>,
                      pw': seq<string>, q: Position)
    requires PreservedFrom(t0, t, p, rs) && NothingOpen(t0, t, p, rs)
    requires Possible(t0, t, p, rs, tw, pw) && Walks(t, p, rs, tw, pw)
    requires Possible(t0, t, p, rs, tw', pw') && Walks(t, p, rs, tw', pw')
    requires Taken(t, p, rs, tw, pw, |pw|, q) && !Taken(t, p, rs, tw', pw', |pw'|, q)
    ensures LabelAt(p, q) == if DroppedAmong(t, p, rs, tw', |tw'|, q) then None else LabelAt(t, q)
  {
    hide Get, Dec, Possible, Walks, PreservedFrom, DroppedAmong, NothingOpen, Takes;
    var m :| 0 <= m < |pw| && Takes(t, p, rs, tw, pw, m) && Dec(pw[m]) <= q;
    SameBelowCopy(t0, t, p, rs, tw, pw, m, tw', pw', q);
  }

  lemma NothingOpenEndsAlike(t0: Json, t: Json, p: Json, rs: seq<string>, tw: seq<string>, pw: seq<string>, d: Json,
                             tw': seq<string>, pw': seq<string>, d': Json)
    requires PreservedFrom(t0, t, p, rs) && NothingOpen(t0, t, p, rs)
    requires Possible(t0, t, p, rs, tw, pw) && Walks(t, p, rs, tw, pw) && Final(t, p, rs, tw, pw, d)
    requires Possible(t0, t, p, rs, tw', pw') && Walks(t, p, rs, tw', pw') && Final(t, p, rs, tw', pw', d')
    ensures d == d'
  {
    hide Get, Possible, Walks, PreservedFrom, NothingOpen, Taken, DroppedAmong;
    forall q ensures LabelAt(d, q) == LabelAt(d', q) { SameLabelInBoth(t0, t, p, rs, tw, pw, tw', pw', q); }
    SameLabels(d, d');
  }

  // ---- where something is open, two orders differ ----

  ghost predicate AlwaysEndsAs(t0: Json, t: Json, p: Json, rs: seq<string>, d: Json) {
    forall tw, pw :: Possible(t0, t, p, rs, tw, pw) ==> Final(t, p, rs, tw, pw, d)
  }

  lemma EndsAs(t0: Json, t: Json, p: Json, rs: seq<string>, d: Json, tw: seq<string>, pw: seq<string>)
    requires AlwaysEndsAs(t0, t, p, rs, d) && Possible(t0, t, p, rs, tw, pw)
    ensures Final(t, p, rs, tw, pw, d)
  {
    hide Possible, Final;
  }

  lemma AlwaysTheSameIsNotOpen(t0: Json, t: Json, p: Json, rs: seq<string>, d: Json)
    requires PreservedFrom(t0, t, p, rs) && PlainAnnotations(p) && DropsMembersOnly(t, p) && KeepsMembersOnly(t, p)
    requires AlwaysEndsAs(t0, t, p, rs, d)
    ensures NothingOpen(t0, t, p, rs)
  {
    hide Get, PreservedFrom, AlwaysEndsAs, MayStay, MustStay, ToldAtAll, ToldAlways, MayCopy, MaySkip, CopyAgrees,
      Dropped, Kept, CommonEmpty, PlainAnnotations, DropsMembersOnly, KeepsMembersOnly, Unpreserved;
    forall y | Dropped(t, p, y) ensures y != [] && (MayStay(t0, t, p, rs, y) ==> MustStay(t0, t, p, rs, y)) {
      DroppedMeans(t0, t, p, rs, y);
      if MayStay(t0, t, p, rs, y) && !MustStay(t0, t, p, rs, y) { StaysInSome(t0, t, p, rs, d, y); }
    }
    forall w | Kept(t, p, w) && ToldAtAll(t, p, rs, w) ensures ToldAlways(t0, t, p, rs, w) {
      if !ToldAlways(t0, t, p, rs, w) { KeptInSome(t0, t, p, rs, d, w); }
    }
    forall w | CommonEmpty(t, p, w) && MayCopy(t0, t, p, rs, w) && MaySkip(t0, t, p, rs, w)
      ensures CopyAgrees(t, p, w)
    {
      CopiedInSome(t0, t, p, rs, d, w);
    }
  }

  lemma StaysInSome(t0: Json, t: Json, p: Json, rs: seq<string>, d: Json, y: Position)
    requires PreservedFrom(t0, t, p, rs) && PlainAnnotations(p) && KeepsMembersOnly(t, p) && Dropped(t, p, y)
    requires y != [] && MayStay(t0, t, p, rs, y) && !MustStay(t0, t, p, rs, y)
    ensures !AlwaysEndsAs(t0, t, p, rs, d)
  {
    hide Get, Possible, PreservedFrom, AlwaysEndsAs, MayStay, MustStay, Dropped, PlainAnnotations, KeepsMembersOnly,
      Walks, DroppedAmong, Taken, Unpreserved;
    if AlwaysEndsAs(t0, t, p, rs, d) {
      DroppedMeans(t0, t, p, rs, y);
      var tw, pw := StayingOrder(t0, t, p, rs, y);
      var tw', pw' := LeavingOrder(t0, t, p, rs, y);
      EndsAs(t0, t, p, rs, d, tw, pw);
      EndsAs(t0, t, p, rs, d, tw', pw');
    }
  }

  lemma KeptInSome(t0: Json, t: Json, p: Json, rs: seq<string>, d: Json, w: Position)
    requires PreservedFrom(t0, t, p, rs) && PlainAnnotations(p) && KeepsMembersOnly(t, p) && Kept(t, p, w)
    requires ToldAtAll(t, p, rs, w) && !ToldAlways(t0, t, p, rs, w)
    ensures !AlwaysEndsAs(t0, t, p, rs, d)
  {
    hide Get, Dec, Possible, PreservedFrom, AlwaysEndsAs, ToldAtAll, ToldAlways, PlainAnnotations, KeepsMembersOnly,
      Walks, DroppedAmong, Takes;
    if AlwaysEndsAs(t0, t, p, rs, d) {
      var tw, pw, m := CopyingOrder(t0, t, p, rs, w);
      var tw', pw', m' := SkippingOrder(t0, t, p, rs, w);
      EndsAs(t0, t, p, rs, d, tw, pw);
      EndsAs(t0, t, p, rs, d, tw', pw');
      assert Taken(t, p, rs, tw, pw, |pw|, w);
      NotTakenIfSkipped(t, p, rs, tw', pw', m', w);
    }
  }

  /** A skipped empty collection is not covered by a copy, and nothing below it is. */
  lemma NotTakenIfSkipped(t: Json, p: Json, rs: seq<string>, tw: seq<string>, pw: seq<string>, m: nat, q: Position)
    requires Walks(t, p, rs, tw, pw) && m < |pw| && !Takes(t, p, rs, tw, pw, m) && Dec(pw[m]) <= q
    requires EmptyCollection(Get(p, Dec(pw[m])).value) && Has(p, Dec(pw[m]))
    ensures !Taken(t, p, rs, tw, pw, |pw|, q)
  {
    hide Enc, Dec, Get, Walks, Takes;
    if Taken(t, p, rs, tw, pw, |pw|, q) {
      var i := TakenHere(t, p, rs, tw, pw, Dec(pw[m]), q);
      PlatformPath(t, p, rs, tw, pw, m);
      PlatformPath(t, p, rs, tw, pw, i);
    }
  }

  lemma CopiedInSome(t0: Json, t: Json, p: Json, rs: seq<string>, d: Json, w: Position)
    requires PreservedFrom(t0, t, p, rs) && PlainAnnotations(p) && DropsMembersOnly(t, p) && KeepsMembersOnly(t, p)
    requires CommonEmpty(t, p, w) && MayCopy(t0, t, p, rs, w) && MaySkip(t0, t, p, rs, w)
    requires AlwaysEndsAs(t0, t, p, rs, d)
    ensures CopyAgrees(t, p, w)
  {
    hide Get, Dec, Possible, PreservedFrom, AlwaysEndsAs, MaySkip, PlainAnnotations, KeepsMembersOnly, Walks,
      HiddenBySibling, ToldAlways, DroppedAmong, Takes, DropsMembersOnly, Merge;
    var tw, pw, m := CopyingOrder(t0, t, p, rs, w);
    var tw', pw', m' := SkippingOrder(t0, t, p, rs, w);
    EndsAs(t0, t, p, rs, d, tw, pw);
    EndsAs(t0, t, p, rs, d, tw', pw');
    forall s ensures LabelAt(Merge(t, p), w + s) == LabelAt(p, w + s) {
      assert w <= w + s;
      assert Taken(t, p, rs, tw, pw, |pw|, w + s);
      NotTakenIfSkipped(t, p, rs, tw', pw', m', w + s);
      NeverDropped(t, p, rs, tw', |tw'|, w + s);
      MergeLabels(t, p, w + s);
      BelowCommon(t, p, w, s);
    }
    SameBelow(Merge(t, p), p, w);
    MergeAt(t, p, w);
  }

  /** At and below an empty collection that both sides have, nothing is to be copied, and nothing is dropped that the
      platform has. */
  lemma BelowCommon(t: Json, p: Json, w: Position, s: Position)
    requires CommonEmpty(t, p, w)
    ensures !Kept(t, p, w + s) && (Dropped(t, p, w + s) ==> LabelAt(p, w + s) == None)
  {
    hide Get;
    if s != [] { BelowEmpty(p, w, w + s); } else { assert w + s == w; }
  }

  /** The exact condition for all orders to agree: whatever the orders in which two comparisons walk the same
      documents, both stop at an immutable field or both have the same result, merged or not, if and only if the
      documents are settled. */
  lemma AllOrdersAgreeExactlyIf(kind: string, name: string, pKind: string, pName: string, t0: Json, t: Json, p: Json,
                                rs: seq<string>, allowRecreate: bool)
    requires PreservedFrom(t0, t, p, rs) && PlainAnnotations(p) && DropsMembersOnly(t, p) && KeepsMembersOnly(t, p)
    ensures (forall tw, pw, tw', pw' | Possible(t0, t, p, rs, tw, pw) && Possible(t0, t, p, rs, tw', pw') ::
               EndAlike(allowRecreate, LoopsOutcome(kind, name, pKind, pName, t, p, rs, tw, pw, allowRecreate),
                        LoopsOutcome(kind, name, pKind, pName, t, p, rs, tw', pw', allowRecreate)))
       <==> Settled(kind, t0, t, p, rs)
  {
    hide Possible, LoopsOutcome, MismatchAmong, PlainAnnotations, KeepsMembersOnly, DropsMembersOnly, NothingOpen,
      OpenMismatch, PreservedFrom, HiddenBySome, FinalDocument, StopsAtField, Walkable, ChosenList, Leading, Final;
    NeverStopsExactlyIf(kind, t0, t, p, rs);
    forall tw, pw, tw', pw' | Possible(t0, t, p, rs, tw, pw) && Possible(t0, t, p, rs, tw', pw')
      ensures Settled(kind, t0, t, p, rs) ==>
                EndAlike(allowRecreate, LoopsOutcome(kind, name, pKind, pName, t, p, rs, tw, pw, allowRecreate),
                         LoopsOutcome(kind, name, pKind, pName, t, p, rs, tw', pw', allowRecreate))
    {
      if Settled(kind, t0, t, p, rs) {
        SettledEndsAlike(kind, name, pKind, pName, t0, t, p, rs, tw, pw, tw', pw', allowRecreate);
      }
    }
    if forall tw, pw, tw', pw' | Possible(t0, t, p, rs, tw, pw) && Possible(t0, t, p, rs, tw', pw') ::
        EndAlike(allowRecreate, LoopsOutcome(kind, name, pKind, pName, t, p, rs, tw, pw, allowRecreate),
                 LoopsOutcome(kind, name, pKind, pName, t, p, rs, tw', pw', allowRecreate)) {
      var tw, n := ChooseList(t0, t, p, rs, NoRank);
      var pw := WholeRankedWalk(p, NoRank);
      ChosenIsPossible(t0, t, p, rs, NoRank, tw, n, pw);
      AlikeIsSettled(kind, name, pKind, pName, t0, t, p, rs, tw, pw, allowRecreate);
    }
  }

  lemma SettledEndsAlike(kind: string, name: string, pKind: string, pName: string, t0: Json, t: Json, p: Json,
                         rs: seq<string>, tw: seq<string>, pw: seq<string>, tw': seq<string>, pw': seq<string>,
                         allowRecreate: bool)
    requires PreservedFrom(t0, t, p, rs) && PlainAnnotations(p) && DropsMembersOnly(t, p) && KeepsMembersOnly(t, p)
    requires Possible(t0, t, p, rs, tw, pw) && Possible(t0, t, p, rs, tw', pw') && Settled(kind, t0, t, p, rs)
    ensures EndAlike(allowRecreate, LoopsOutcome(kind, name, pKind, pName, t, p, rs, tw, pw, allowRecreate),
                     LoopsOutcome(kind, name, pKind, pName, t, p, rs, tw', pw', allowRecreate))
  {
    hide Possible, LoopsOutcome, MismatchAmong, PlainAnnotations, KeepsMembersOnly, DropsMembersOnly, NothingOpen,
      OpenMismatch, PreservedFrom, HiddenBySome, FinalDocument, StopsAtField, Final, Walks, Lists, IsWalk;
    NeverStopsExactlyIf(kind, t0, t, p, rs);
    PossibleWalks(t0, t, p, rs, tw, pw);
    PossibleWalks(t0, t, p, rs, tw', pw');
    LoopsEndFinal(kind, name, pKind, pName, t, p, rs, tw, pw, allowRecreate);
    LoopsEndFinal(kind, name, pKind, pName, t, p, rs, tw', pw', allowRecreate);
    if !MismatchAmong(kind, t, p, rs, tw, |tw|) && !MismatchAmong(kind, t, p, rs, tw', |tw'|) {
      NothingOpenEndsAlike(t0, t, p, rs, tw, pw, FinalDocument(kind, t, p, rs, tw, pw), tw', pw',
                           FinalDocument(kind, t, p, rs, tw', pw'));
    }
  }

  lemma AlikeIsSettled(kind: string, name: string, pKind: string, pName: string, t0: Json, t: Json, p: Json,
                       rs: seq<string>, tw: seq<string>, pw: seq<string>, allowRecreate: bool)
    requires PreservedFrom(t0, t, p, rs) && PlainAnnotations(p) && DropsMembersOnly(t, p) && KeepsMembersOnly(t, p)
    requires forall tw', pw' | Possible(t0, t, p, rs, tw', pw') ::
               EndAlike(allowRecreate, LoopsOutcome(kind, name, pKind, pName, t, p, rs, tw, pw, allowRecreate),
                        LoopsOutcome(kind, name, pKind, pName, t, p, rs, tw', pw', allowRecreate))
    requires Possible(t0, t, p, rs, tw, pw)
    ensures Settled(kind, t0, t, p, rs)
  {
    hide Possible, LoopsOutcome, MismatchAmong, PlainAnnotations, KeepsMembersOnly, DropsMembersOnly, NothingOpen,
      OpenMismatch, PreservedFrom, HiddenBySome, FinalDocument, StopsAtField, Final, Walks, Lists, IsWalk;
    NeverStopsExactlyIf(kind, t0, t, p, rs);
    StopsExactlyIf(kind, name, pKind, pName, t0, t, p, rs, tw, pw, allowRecreate);
    PossibleWalks(t0, t, p, rs, tw, pw);
    LoopsEndFinal(kind, name, pKind, pName, t, p, rs, tw, pw, allowRecreate);
    var d := FinalDocument(kind, t, p, rs, tw, pw);
    forall tw', pw' | Possible(t0, t, p, rs, tw', pw')
      ensures MismatchAmong(kind, t, p, rs, tw', |tw'|) <==> MismatchAmong(kind, t, p, rs, tw, |tw|)
      ensures !MismatchAmong(kind, t, p, rs, tw, |tw|) ==> Final(t, p, rs, tw', pw', d)
    {
      StopsExactlyIf(kind, name, pKind, pName, t0, t, p, rs, tw', pw', allowRecreate);
      PossibleWalks(t0, t, p, rs, tw', pw');
      LoopsEndFinal(kind, name, pKind, pName, t, p, rs, tw', pw', allowRecreate);
    }
    if !MismatchAmong(kind, t, p, rs, tw, |tw|) { AlwaysTheSameIsNotOpen(t0, t, p, rs, d); }
  }

  /** Where no pointer hides another, and no immutable field differs, documents are robust. */
  lemma NothingHiddenIsRobust(kind: string, t0: Json, t: Json, p: Json, rs: seq<string>)
    requires PreservedFrom(t0, t, p, rs) && PlainAnnotations(p) && DropsMembersOnly(t, p) && KeepsMembersOnly(t, p)
    requires NothingHidden(t, p, rs) && !AnyMismatch(kind, t, p)
    ensures Robust(kind, t0, t, p, rs)
  {
    hide Possible, Merge, LoopsOutcome, PlainAnnotations, KeepsMembersOnly, DropsMembersOnly, Robust, AnyMismatch,
      NothingHidden, Lists, Walks, IsWalk;
    AlwaysMergedExactlyIf(kind, "", "", "", t0, t, p, rs, false);
    AnyOrderGivesTheSame(kind, "", "", "", t, p, rs, false);
    forall tw, pw | Possible(t0, t, p, rs, tw, pw)
      ensures LoopsOutcome(kind, "", "", "", t, p, rs, tw, pw, false) == Success([NewChange(kind, "", Merge(t, p), p)])
    {
      PossibleWalks(t0, t, p, rs, tw, pw);
    }
  }

  /** Robust documents are settled. */
  lemma RobustIsSettled(kind: string, t0: Json, t: Json, p: Json, rs: seq<string>)
    requires Robust(kind, t0, t, p, rs)
    ensures Settled(kind, t0, t, p, rs)
  {
    hide OpenMismatch, HiddenBySome, MayStay, MustStay, ToldAtAll, ToldAlways, MayCopy, MaySkip, CopyAgrees, Dropped,
      Kept, CommonEmpty;
  }
}
