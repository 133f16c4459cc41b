/** What depends on the order in which two documents are walked, position by position: whether the raw prefix tests
    pass it over in some order, or in every order, as conditions on the documents alone. */
module Orders {
  import opened Text
  import opened Documents
  import opened Pointers
  import opened Merging
  import opened Walking
  import opened Arranging
  import opened Preparing
  import opened Platform
  import opened Comparison
  import opened Hiding
  import opened Exactness
  import opened Choices

  // ---- conditions on the documents ----

  /** In every order, an added position comes before w and has a pointer that is a string prefix of the pointer of w:
      it is an earlier element of the same list, or w is listed only when all else is. */
  ghost predicate HiddenAlways(t0: Json, t: Json, p: Json, rs: seq<string>, w: Position) {
    exists x :: AddsAt(t, p, rs, x) && x != w && Enc(x) <= Enc(w) && (InList(t, x) || !Has(t0, w))
  }

  /** A sibling of w that the template adds has a pointer that is a string prefix of the pointer of w. */
  ghost predicate HiddenBySibling(t: Json, p: Json, rs: seq<string>, w: Position) {
    exists x :: AddsAt(t, p, rs, x) && Siblings(x, w) && x != w && Enc(x) <= Enc(w)
  }

  /** The platform has something at w that is reported if it was not compared. */
  predicate Reportable(p: Json, w: Position) {
    w != [] && Has(p, w) && Get(p, w).value != Null && !EmptyCollection(Get(p, w).value) && w != ANNOTATIONS
  }

  /** In some order, a reported position with a pointer that is a string prefix of the pointer of z comes before z. */
  ghost predicate ToldAtAll(t: Json, p: Json, rs: seq<string>, z: Position) {
    exists w :: Reportable(p, w) && (!Has(t, w) || HiddenBySome(t, p, rs, w)) && w != z && Enc(w) <= Enc(z)
  }

  /** In every order, such a position comes before z. */
  ghost predicate ToldAlways(t0: Json, t: Json, p: Json, rs: seq<string>, z: Position) {
    exists w :: Reportable(p, w) && (!Has(t, w) || HiddenAlways(t0, t, p, rs, w)) && w != z && Enc(w) <= Enc(z)
                && (w <= z || InList(p, w))
  }

  /** An empty collection of the platform at a position that the template has, too. */
  predicate CommonEmpty(t: Json, p: Json, w: Position) {
    w != [] && Has(t, w) && Has(p, w) && EmptyCollection(Get(p, w).value)
  }

  /** In some order, this empty collection is copied into the template. */
  ghost predicate MayCopy(t0: Json, t: Json, p: Json, rs: seq<string>, w: Position) {
    HiddenBySibling(t, p, rs, w) && !ToldAlways(t0, t, p, rs, w)
  }

  /** In some order, it is not. */
  ghost predicate MaySkip(t0: Json, t: Json, p: Json, rs: seq<string>, w: Position) {
    !HiddenAlways(t0, t, p, rs, w) || ToldAtAll(t, p, rs, w)
  }

  /** Whenever the empty string at y is left alone, the empty collection of the platform around it is copied. */
  ghost predicate CopiedAround(t0: Json, t: Json, p: Json, rs: seq<string>, y: Position)
    requires y != []
  {
    var z := Parent(y);
    && CommonEmpty(t, p, z) && !ToldAtAll(t, p, rs, z)
    && (HiddenAlways(t0, t, p, rs, z) || (!AnyPrefix(rs, Enc(y)) && !HiddenBySibling(t, p, rs, y)))
  }

  /** In some order, an empty string that should be dropped stays. */
  ghost predicate MayStay(t0: Json, t: Json, p: Json, rs: seq<string>, y: Position)
    requires y != []
  {
    (AnyPrefix(rs, Enc(y)) || HiddenBySome(t, p, rs, y)) && !CopiedAround(t0, t, p, rs, y)
  }

  /** In every order, it stays. */
  ghost predicate MustStay(t0: Json, t: Json, p: Json, rs: seq<string>, y: Position)
    requires y != []
  {
    && (AnyPrefix(rs, Enc(y)) || HiddenAlways(t0, t, p, rs, y))
    && !(CommonEmpty(t, p, Parent(y)) && MayCopy(t0, t, p, rs, Parent(y)))
  }

  // ---- orders that lead to a position ----

  /** The order that leads to c: first what is on the way to c, then the others, those with longer pointers first,
      and last of all the position last. */
  function Leading(c: Position, last: Position): Ranking {
    (q: Position) => if q <= c then 0.0 else if q == last then 2.0 else 1.0 / (1 + |Enc(q)|) as real
  }

  lemma ShorterIsBehind(a: nat, b: nat)
    requires a < b
    ensures 0.0 < 1.0 / (1 + b) as real < 1.0 / (1 + a) as real <= 1.0
  {
    var x, y := (1 + a) as real, (1 + b) as real;
    assert 1.0 / x - 1.0 / y == (y - x) / (x * y);
  }

  /** A position on the way comes before its siblings, and the last one comes last. */
  lemma OnTheWayFirst(c: Position, last: Position, x: Position, u: Position)
    requires |x| == |u| && x != u && (x <= c || (u == last && !(u <= c)))
    ensures Leading(c, last)(x) < Leading(c, last)(u)
  {
    hide Enc;
    ShorterIsBehind(0, 1 + |Enc(u)|);
    ShorterIsBehind(0, 1 + |Enc(x)|);
    ShorterIsBehind(|Enc(u)|, 1 + |Enc(u)|);
    ShorterIsBehind(|Enc(x)|, 1 + |Enc(x)|);
    if x <= c && u <= c { PrefixesOfOne(x, u, c); }
  }

  /** Of two siblings, one that is not on the way comes behind one with a longer pointer. */
  lemma ShortPointersLast(c: Position, last: Position, x: Position, u: Position)
    requires !(x <= c) && |Enc(x)| < |Enc(u)| && (u != last || u <= c)
    ensures Leading(c, last)(u) < Leading(c, last)(x)
  {
    hide Enc;
    ShorterIsBehind(|Enc(x)|, |Enc(u)|);
    ShorterIsBehind(0, 1 + |Enc(x)|);
  }

  /** In an order that leads to x, x hides what it can hide. */
  lemma LeaderHides(t0: Json, t: Json, p: Json, rs: seq<string>, c: Position, last: Position, x: Position, w: Position)
    requires AddsAt(t, p, rs, x) && x != w && Enc(x) <= Enc(w)
    requires x <= c || (w == last && |x| == |w| && !(w <= c))
    ensures HidesThere(t0, t, p, rs, Leading(c, last), x, w)
  {
    hide Enc, Get, Leading;
    BesideOrAbove(x, w);
    assert |x| == |w| ==> w[..|x|] == w;
    if !(x <= w) { OnTheWayFirst(c, last, x, w[..|x|]); }
  }

  /** Where w is not hidden always, an order does not hide it that leads to none of the positions that could. */
  lemma LeadersSpare(t0: Json, t: Json, p: Json, rs: seq<string>, c: Position, last: Position, w: Position)
    requires w != [] && Has(t0, w) && Has(p, Parent(w)) && !HiddenAlways(t0, t, p, rs, w)
    requires last == [] || last <= c || !(last <= w)
    requires forall x :: AddsAt(t, p, rs, x) && x <= c && x != w ==> !(Enc(x) <= Enc(w))
    ensures NotHiddenThere(t, p, rs, Leading(c, last), w)
  {
    hide Enc, Get, Leading, AnyPrefix, InList;
    forall x | AddsAt(t, p, rs, x) && x != w && Enc(x) <= Enc(w)
      ensures !InList(t, x) && |x| <= |w| && Leading(c, last)(w[..|x|]) < Leading(c, last)(x)
    {
      BesideOrAbove(x, w);
      AddedIsNotAbove(p, x, w);
      var u := w[..|x|];
      ShortPointersLast(c, last, x, u);
    }
  }

  /** Then w is compared. */
  lemma SparedIsSeen(t0: Json, t: Json, p: Json, rs: seq<string>, c: Position, last: Position, tw: seq<string>, n: nat,
                     w: Position)
    requires PreservedFrom(t0, t, p, rs) && ChosenList(t0, t, p, rs, Leading(c, last), tw, n)
    requires w != [] && Has(t, w) && Has(p, Parent(w)) && !HiddenAlways(t0, t, p, rs, w)
    requires last == [] || last <= c || !(last <= w)
    requires forall x :: AddsAt(t, p, rs, x) && x <= c && x != w ==> !(Enc(x) <= Enc(w))
    ensures Seen(t, p, rs, tw, Enc(w))
    ensures Unpreserved(w, rs) ==> forall k :: 0 <= k < |tw| && tw[k] == Enc(w) ==> !PassedBy(t, p, rs, tw, k)
  {
    hide Enc, Dec, Get, PreservedFrom, Unpreserved, Leading, AddsAt, PassedBy, Ranked, WalkFirst, Lists;
    if Has(t0, w) {
      var k := ChosenIndex(t0, t, p, rs, Leading(c, last), tw, n, w);
      LeadersSpare(t0, t, p, rs, c, last, w);
      NotPassedBy(t0, t, p, rs, Leading(c, last), tw, n, k);
    } else {
      PreservedMeans(t0, t, p, rs);
      var k := IndexIn(t, p, rs, tw, w);
      assert !HiddenBySome(t, p, rs, w);
      if PassedBy(t, p, rs, tw, k) { var m := HiddenBefore(t, p, rs, tw, k); }
    }
  }

  /** What the platform's walk has before a position it leads to: what is above it, and earlier list elements. */
  lemma BeforeLed(p: Json, c: Position, pw: seq<string>, i: nat, k: nat)
    requires Walkable(pw, p) && Ranked(pw, p, [], Leading(c, [])) && i < |pw| && k < |pw|
    requires i < k && pw[i] <= pw[k] && Dec(pw[k]) == c
    ensures Dec(pw[i]) <= c || InList(p, Dec(pw[i]))
  {
    hide Enc, Dec, Get, Walkable, Ranked, InList, Leading;
    InWalk(pw, p, i);
    InWalk(pw, p, k);
    WhichIsFirst(pw, p, Leading(c, []), i, k);
    var v := Dec(pw[i]);
    if !(v <= c) { OnTheWayFirst(c, [], c[..|v|], v); }
  }

  /** And a position it leads to comes before all that have its pointer as a string prefix. */
  lemma LedBefore(p: Json, c: Position, pw: seq<string>, i: nat, k: nat)
    requires Walkable(pw, p) && Ranked(pw, p, [], Leading(c, [])) && i < |pw| && k < |pw|
    requires i != k && pw[i] <= pw[k] && Dec(pw[i]) == c
    ensures i < k
  {
    hide Enc, Dec, Get, Walkable, Ranked, InList, Leading;
    InWalk(pw, p, i);
    InWalk(pw, p, k);
    WhichIsFirst(pw, p, Leading(c, []), i, k);
    var w := Dec(pw[k]);
    if !(c <= w) { OnTheWayFirst(c, [], c, w[..|c|]); }
  }

  // ---- what is compared ----

  /** What is hidden always is not compared in any order. */
  lemma HiddenIsNotSeen(t0: Json, t: Json, p: Json, rs: seq<string>, rank: Ranking, tw: seq<string>, n: nat,
                        w: Position)
    requires PreservedFrom(t0, t, p, rs) && ChosenList(t0, t, p, rs, rank, tw, n) && Has(p, w)
    requires !Has(t, w) || HiddenAlways(t0, t, p, rs, w)
    ensures !Seen(t, p, rs, tw, Enc(w))
  {
    hide Enc, Dec, Get, PreservedFrom, Seen, Lists, WalkFirst, Ranked, AddsAt;
    if Has(t, w) {
      var x :| AddsAt(t, p, rs, x) && x != w && Enc(x) <= Enc(w) && (InList(t, x) || !Has(t0, w));
      HiddenThere(t0, t, p, rs, rank, tw, n, x, w);
    } else {
      NotSeen(t, p, rs, tw, w);
    }
  }

  /** What is not compared in some order is only on the platform, or hidden by an added position. */
  lemma NotSeenIsHidden(t: Json, p: Json, rs: seq<string>, tw: seq<string>, w: Position) returns (k: nat, m: nat)
    requires Lists(tw, t, p, rs) && w != [] && Has(t, w) && !Seen(t, p, rs, tw, Enc(w))
    ensures m < k < |tw| && tw[k] == Enc(w) && Dec(tw[k]) == w && PassedBy(t, p, rs, tw, k)
    ensures tw[m] == Enc(Dec(tw[m])) && AddsAt(t, p, rs, Dec(tw[m])) && tw[m] <= tw[k] && Dec(tw[m]) != w
    ensures HiddenBySome(t, p, rs, w)
  {
    hide Enc, Dec, Get, PassedBy, Lists, AddsAt;
    k := IndexIn(t, p, rs, tw, w);
    assert PassedBy(t, p, rs, tw, k);
    m := HiddenBefore(t, p, rs, tw, k);
  }

  // ---- what is reported ----

  lemma TellsIsReportable(t: Json, p: Json, rs: seq<string>, tw: seq<string>, pw: seq<string>, i: nat)
    requires Walks(t, p, rs, tw, pw) && i < |pw|
    ensures Tells(t, p, rs, tw, pw, i) <==> !Seen(t, p, rs, tw, pw[i]) && Reportable(p, Dec(pw[i]))
    ensures pw[i] == Enc(Dec(pw[i])) && Has(p, Dec(pw[i])) && Dec(pw[i]) != []
  {
    hide Enc, Dec, Get, Seen;
    PlatformPath(t, p, rs, tw, pw, i);
    DecEnc(ANNOTATIONS);
  }

  /** What a path was told before, it could be told before. */
  lemma ToldIsTellable(t: Json, p: Json, rs: seq<string>, tw: seq<string>, pw: seq<string>, m: nat)
    requires Walks(t, p, rs, tw, pw) && m < |pw| && ToldBefore(t, p, rs, tw, pw, m, pw[m])
    ensures ToldAtAll(t, p, rs, Dec(pw[m]))
  {
    hide Enc, Dec, Get, Seen, Tells, Reportable, HiddenBySome, Walks;
    TellsIsReportable(t, p, rs, tw, pw, m);
    PlatformPath(t, p, rs, tw, pw, m);
    var i :| 0 <= i < m && Tells(t, p, rs, tw, pw, i) && pw[i] <= pw[m];
    TellsIsReportable(t, p, rs, tw, pw, i);
    if Has(t, Dec(pw[i])) {
      ListsOfWalks(t, p, rs, tw, pw);
      var k, j := NotSeenIsHidden(t, p, rs, tw, Dec(pw[i]));
    }
  }

  /** What is always told before is told before in any order. */
  lemma ToldInEveryOrder(t0: Json, t: Json, p: Json, rs: seq<string>, tw: seq<string>, pw: seq<string>, m: nat)
    requires PreservedFrom(t0, t, p, rs) && Possible(t0, t, p, rs, tw, pw) && Walks(t, p, rs, tw, pw)
    requires m < |pw| && ToldAlways(t0, t, p, rs, Dec(pw[m]))
    ensures ToldBefore(t, p, rs, tw, pw, m, pw[m])
  {
    hide Enc, Dec, Get, Seen, Tells, Walks, Possible, Lists, WalkFirst, Ranked, PreservedFrom, InList, HiddenAlways,
      Walkable;
    TellsIsReportable(t, p, rs, tw, pw, m);
    var n := PossibleIsChosen(t0, t, p, rs, tw, pw);
    var z := Dec(pw[m]);
    var w :| Reportable(p, w) && (!Has(t, w) || HiddenAlways(t0, t, p, rs, w)) && w != z && Enc(w) <= Enc(z)
             && (w <= z || InList(p, w));
    HiddenIsNotSeen(t0, t, p, rs, NoRank, tw, n, w);
    var i := WalkIndex(pw, p, w);
    AnyRanking(pw, p);
    WhichIsFirst(pw, p, NoRank, i, m);
    TellsIsReportable(t, p, rs, tw, pw, i);
  }

  /** Two path lists in which z is told before; the first leads to c, or to an added position that hides z. */
  lemma TellingOrder(t0: Json, t: Json, p: Json, rs: seq<string>, z: Position, c: Position)
    returns (tw: seq<string>, n: nat, pw: seq<string>, x: Position)
    requires PreservedFrom(t0, t, p, rs) && PlainAnnotations(p) && KeepsMembersOnly(t, p) && ToldAtAll(t, p, rs, z)
    ensures ChosenList(t0, t, p, rs, Leading(x, []), tw, n) && Possible(t0, t, p, rs, tw, pw) && Walks(t, p, rs, tw, pw)
    ensures x == c || (AddsAt(t, p, rs, x) && Enc(x) <= Enc(z) && !Has(p, x))
    ensures forall m :: 0 <= m < |pw| && Dec(pw[m]) == z ==> ToldBefore(t, p, rs, tw, pw, m, pw[m])
  {
    hide Enc, Dec, Get, Seen, Tells, Walks, Possible, ChosenList, PreservedFrom, AddsAt, Walkable, Leading, Ranked;
    var w :| Reportable(p, w) && (!Has(t, w) || HiddenBySome(t, p, rs, w)) && w != z && Enc(w) <= Enc(z);
    x := c;
    if Has(t, w) {
      x :| AddsAt(t, p, rs, x) && x != w && Enc(x) <= Enc(w);
      AddedMeans(t0, t, p, rs, x);
      LeaderHides(t0, t, p, rs, x, [], x, w);
    }
    tw, n := ChooseList(t0, t, p, rs, Leading(x, []));
    if Has(t, w) {
      HiddenThere(t0, t, p, rs, Leading(x, []), tw, n, x, w);
    } else {
      ChosenLists(t0, t, p, rs, Leading(x, []), tw, n);
      NotSeen(t, p, rs, tw, w);
    }
    pw := WholeRankedWalk(p, Leading(w, []));
    OrderedWalks(t0, t, p, rs, Leading(x, []), tw, n, pw);
    var i := WalkIndex(pw, p, w);
    TellsIsReportable(t, p, rs, tw, pw, i);
    forall m | 0 <= m < |pw| && Dec(pw[m]) == z ensures ToldBefore(t, p, rs, tw, pw, m, pw[m]) {
      InWalk(pw, p, m);
      LedBefore(p, w, pw, i, m);
    }
  }

  lemma ChosenLists(t0: Json, t: Json, p: Json, rs: seq<string>, rank: Ranking, tw: seq<string>, n: nat)
    requires ChosenList(t0, t, p, rs, rank, tw, n)
    ensures Lists(tw, t, p, rs)
  {
    hide Lists, WalkFirst, Ranked;
  }

  lemma OrderedWalks(t0: Json, t: Json, p: Json, rs: seq<string>, rank: Ranking, tw: seq<string>, n: nat,
                     pw: seq<string>)
    requires ChosenList(t0, t, p, rs, rank, tw, n) && Walkable(pw, p) && PlainAnnotations(p) && KeepsMembersOnly(t, p)
    ensures Possible(t0, t, p, rs, tw, pw) && Walks(t, p, rs, tw, pw)
  {
    hide Lists, WalkFirst, Ranked, IsWalk, Arranged;
    ChosenIsPossible(t0, t, p, rs, rank, tw, n, pw);
    WalkLists(pw, p, t);
  }

  lemma PossibleWalks(t0: Json, t: Json, p: Json, rs: seq<string>, tw: seq<string>, pw: seq<string>)
    requires Possible(t0, t, p, rs, tw, pw) && PlainAnnotations(p) && KeepsMembersOnly(t, p)
    ensures Walks(t, p, rs, tw, pw) && Lists(tw, t, p, rs) && IsWalk(pw, p)
  {
    hide Lists, WalkFirst, IsWalk, Arranged;
    WalkLists(pw, p, t);
  }

  // ---- what is copied ----

  /** The order in which as little as possible is told before w: it leads to w's parent and has w last. */
  lemma QuietOrder(t0: Json, t: Json, p: Json, rs: seq<string>, w: Position)
    returns (tw: seq<string>, n: nat, pw: seq<string>, m: nat)
    requires PreservedFrom(t0, t, p, rs) && PlainAnnotations(p) && KeepsMembersOnly(t, p)
    requires w != [] && Has(t, Parent(w)) && Has(p, w) && !ToldAlways(t0, t, p, rs, w)
    ensures ChosenList(t0, t, p, rs, Leading(Parent(w), w), tw, n) && Possible(t0, t, p, rs, tw, pw)
    ensures Walks(t, p, rs, tw, pw)
    ensures m < |pw| && pw[m] == Enc(w) && Dec(pw[m]) == w && !ToldBefore(t, p, rs, tw, pw, m, pw[m])
  {
    hide Enc, Dec, Get, Seen, Tells, Walks, Possible, ChosenList, PreservedFrom, AddsAt, Walkable, Leading, Ranked,
      ToldAlways;
    tw, n := ChooseList(t0, t, p, rs, Leading(Parent(w), w));
    pw := WholeRankedWalk(p, Leading(w, []));
    OrderedWalks(t0, t, p, rs, Leading(Parent(w), w), tw, n, pw);
    m := WalkIndex(pw, p, w);
    forall i | 0 <= i < m && pw[i] <= pw[m] ensures !Tells(t, p, rs, tw, pw, i) {
      NotToldInQuiet(t0, t, p, rs, tw, n, pw, i, m);
    }
  }

  lemma NotToldInQuiet(t0: Json, t: Json, p: Json, rs: seq<string>, tw: seq<string>, n: nat, pw: seq<string>, i: nat,
                       m: nat)
    requires PreservedFrom(t0, t, p, rs) && Walks(t, p, rs, tw, pw) && Walkable(pw, p)
    requires m < |pw| && i < m && pw[i] <= pw[m] && Ranked(pw, p, [], Leading(Dec(pw[m]), []))
    requires var w := Dec(pw[m]);
             w != [] && Has(t, Parent(w)) && !ToldAlways(t0, t, p, rs, w) &&
             ChosenList(t0, t, p, rs, Leading(Parent(w), w), tw, n)
    ensures !Tells(t, p, rs, tw, pw, i)
  {
    hide Enc, Dec, Get, Seen, Walks, ChosenList, PreservedFrom, AddsAt, Walkable, Leading, Ranked, InList, HiddenAlways,
      Tells;
    var w, v := Dec(pw[m]), Dec(pw[i]);
    TellsIsReportable(t, p, rs, tw, pw, i);
    TellsIsReportable(t, p, rs, tw, pw, m);
    PlatformPath(t, p, rs, tw, pw, m);
    if Reportable(p, v) {
      BeforeLed(p, w, pw, i, m);
      BesideOrAbove(v, w);
      assert Has(t, v) && !HiddenAlways(t0, t, p, rs, v);
      GetPrefix(p, Parent(v), v);
      GetPrefix(p, Parent(w), w);
      forall x | AddsAt(t, p, rs, x) ensures !(x <= Parent(w)) {
        AddedMeans(t0, t, p, rs, x);
        if x <= Parent(w) { GetPrefix(p, x, Parent(w)); }
      }
      NoLongerPrefix(w, v);
      SparedIsSeen(t0, t, p, rs, Parent(w), w, tw, n, v);
    }
  }

  lemma NoLongerPrefix(w: Position, v: Position)
    requires |v| <= |w|
    ensures w <= v ==> v == w
  {
  }

  /** An empty collection that may be copied, or that only the platform has and that is not always told before, is
      copied in some order. */
  lemma CopyingOrder(t0: Json, t: Json, p: Json, rs: seq<string>, w: Position)
    returns (tw: seq<string>, pw: seq<string>, m: nat)
    requires PreservedFrom(t0, t, p, rs) && PlainAnnotations(p) && KeepsMembersOnly(t, p)
    requires Kept(t, p, w) || (CommonEmpty(t, p, w) && HiddenBySibling(t, p, rs, w))
    requires !ToldAlways(t0, t, p, rs, w)
    ensures Possible(t0, t, p, rs, tw, pw) && Walks(t, p, rs, tw, pw)
    ensures m < |pw| && pw[m] == Enc(w) && Dec(pw[m]) == w && Takes(t, p, rs, tw, pw, m)
  {
    hide Enc, Dec, Get, Seen, Walks, Possible, ChosenList, PreservedFrom, AddsAt, Leading, ToldAlways, ToldBefore;
    var n;
    if Has(t, w) { GetPrefix(t, Parent(w), w); }
    tw, n, pw, m := QuietOrder(t0, t, p, rs, w);
    if Has(t, w) {
      var x :| AddsAt(t, p, rs, x) && Siblings(x, w) && x != w && Enc(x) <= Enc(w);
      LeaderHides(t0, t, p, rs, Parent(w), w, x, w);
      HiddenThere(t0, t, p, rs, Leading(Parent(w), w), tw, n, x, w);
    } else {
      ChosenLists(t0, t, p, rs, Leading(Parent(w), w), tw, n);
      NotSeen(t, p, rs, tw, w);
    }
  }

  /** A common empty collection is not copied in some order if it is not always hidden, or could be told before. */
  lemma SkippingOrder(t0: Json, t: Json, p: Json, rs: seq<string>, w: Position)
    returns (tw: seq<string>, pw: seq<string>, m: nat)
    requires PreservedFrom(t0, t, p, rs) && PlainAnnotations(p) && KeepsMembersOnly(t, p)
    requires (CommonEmpty(t, p, w) && MaySkip(t0, t, p, rs, w)) || (Kept(t, p, w) && ToldAtAll(t, p, rs, w))
    ensures Possible(t0, t, p, rs, tw, pw) && Walks(t, p, rs, tw, pw)
    ensures m < |pw| && pw[m] == Enc(w) && Dec(pw[m]) == w && !Takes(t, p, rs, tw, pw, m)
  {
    hide Enc, Dec, Get, Seen, Walks, Possible, ChosenList, PreservedFrom, AddsAt, Leading, ToldAtAll, ToldBefore,
      HiddenAlways, Walkable;
    var n;
    if ToldAtAll(t, p, rs, w) {
      var x;
      tw, n, pw, x := TellingOrder(t0, t, p, rs, w, []);
    } else {
      tw, n := ChooseList(t0, t, p, rs, Leading([], []));
      GetPrefix(p, Parent(w), w);
      SparedFromTheRoot(t0, t, p, rs, tw, n, w);
      pw := WholeRankedWalk(p, NoRank);
      OrderedWalks(t0, t, p, rs, Leading([], []), tw, n, pw);
    }
    m := PlatformIndex(t, p, rs, tw, pw, w);
  }

  lemma SparedFromTheRoot(t0: Json, t: Json, p: Json, rs: seq<string>, tw: seq<string>, n: nat, w: Position)
    requires PreservedFrom(t0, t, p, rs) && ChosenList(t0, t, p, rs, Leading([], []), tw, n)
    requires w != [] && Has(t, w) && Has(p, Parent(w)) && !HiddenAlways(t0, t, p, rs, w)
    ensures Seen(t, p, rs, tw, Enc(w))
    ensures Unpreserved(w, rs) ==> forall k :: 0 <= k < |tw| && tw[k] == Enc(w) ==> !PassedBy(t, p, rs, tw, k)
  {
    hide Enc, Dec, Get, Seen, ChosenList, PreservedFrom, AddsAt, Leading, HiddenAlways, Unpreserved, PassedBy;
    forall x | AddsAt(t, p, rs, x) ensures !(x <= []) { AddedMeans(t0, t, p, rs, x); }
    SparedIsSeen(t0, t, p, rs, [], [], tw, n, w);
  }

  lemma NotBelowAnnotations(p: Json, w: Position)
    requires PlainAnnotations(p) && Has(p, w) && IsCollection(Get(p, w).value)
    ensures !(ANNOTATIONS < w)
  {
    hide Get;
    if ANNOTATIONS < w {
      var a := w[..3];
      assert w[..|w|] == w && Parent(a) == ANNOTATIONS;
      if a != w { NotEmpty(p, a, w); }
      NotAnAnnotation(p, a);
    }
  }

  /** An empty collection below a position that was not compared is not copied. */
  lemma ToldAbove(t: Json, p: Json, rs: seq<string>, tw: seq<string>, pw: seq<string>, m: nat, z: Position)
    requires Walks(t, p, rs, tw, pw) && m < |pw| && EmptyCollection(Get(p, Dec(pw[m])).value)
    requires z != [] && z < Dec(pw[m]) && !Seen(t, p, rs, tw, Enc(z))
    ensures ToldBefore(t, p, rs, tw, pw, m, pw[m])
  {
    hide Enc, Dec, Get, Seen, PlainAnnotations, Tells;
    var w := Dec(pw[m]);
    PlatformPath(t, p, rs, tw, pw, m);
    NotEmpty(p, z, w);
    NotBelowAnnotations(p, w);
    assert z == w[..|z|] && Enc(z) in pw[..m];
    var i :| 0 <= i < m && pw[i] == Enc(z);
    DecEnc(z);
    EncPrefixOfDescendant(z, w);
    TellsIsReportable(t, p, rs, tw, pw, i);
  }

  /** What hides a position, in one list, hides all that is beside it on the way there. */
  lemma HiddenTogether(t0: Json, t: Json, p: Json, rs: seq<string>, tw: seq<string>, n: nat, m: nat, k: nat)
    requires PreservedFrom(t0, t, p, rs) && ChosenList(t0, t, p, rs, NoRank, tw, n) && m < k < n
    requires AddsAt(t, p, rs, Dec(tw[m])) && tw[m] == Enc(Dec(tw[m])) && tw[m] <= tw[k]
    requires Has(p, Parent(Dec(tw[k]))) && Unpreserved(Dec(tw[k]), rs) && Dec(tw[m]) != Dec(tw[k]) && Dec(tw[k]) != []
    requires tw[k] == Enc(Dec(tw[k]))
    ensures var x, y := Dec(tw[m]), Dec(tw[k]);
            && |x| <= |y| && Parent(x) <= y && Enc(x) <= Enc(y[..|x|])
            && (|x| < |y| ==> Has(p, y[..|x|]) && !Seen(t, p, rs, tw, Enc(y[..|x|])))
  {
    hide Enc, Dec, Get, Walkable, Ranked, Lists, PreservedFrom, Unpreserved, AddsAt, SeenAmong;
    var x, y := Dec(tw[m]), Dec(tw[k]);
    AddedMeans(t0, t, p, rs, x);
    BesideOrAbove(x, y);
    AddedIsNotAbove(p, x, y);
    if |x| < |y| {
      GetPrefix(p, y[..|x|], Parent(y));
      HiddenOnTheWay(t0, t, p, rs, tw, n, m, k, y[..|x|]);
    }
  }

  lemma HiddenOnTheWay(t0: Json, t: Json, p: Json, rs: seq<string>, tw: seq<string>, n: nat, m: nat, k: nat,
                       z: Position)
    requires PreservedFrom(t0, t, p, rs) && ChosenList(t0, t, p, rs, NoRank, tw, n) && m < k < n
    requires AddsAt(t, p, rs, Dec(tw[m])) && tw[m] == Enc(Dec(tw[m])) && Enc(Dec(tw[m])) <= Enc(z)
    requires z != [] && z <= Dec(tw[k]) && |z| >= |Dec(tw[m])| && Has(p, z) && Unpreserved(Dec(tw[k]), rs)
    ensures !Seen(t, p, rs, tw, Enc(z))
  {
    hide Enc, Dec, Get, Ranked, Lists, PreservedFrom, IsWalk, ElementsAscend, AnyPrefix;
    var x := Dec(tw[m]);
    AddedMeans(t0, t, p, rs, x);
    UnpreservedAbove(Dec(tw[k]), z, rs);
    DecEnc(z);
    forall i | 0 <= i < |tw| && tw[i] == Enc(z) ensures PassedBy(t, p, rs, tw, i) {
      assert i < n;
      NoLongerPrefix(z, x);
      StayTogether(tw[..n], i, m, k);
      assert Adds(t, p, rs, tw[m]);
    }
  }

  /** A common empty collection that is copied in some order has a sibling that hides it, and is not always told. */
  lemma CopiedIsCopyable(t0: Json, t: Json, p: Json, rs: seq<string>, tw: seq<string>, pw: seq<string>, m: nat)
    requires PreservedFrom(t0, t, p, rs) && Possible(t0, t, p, rs, tw, pw) && Walks(t, p, rs, tw, pw)
    requires m < |pw| && Takes(t, p, rs, tw, pw, m) && Has(t, Dec(pw[m])) && Unpreserved(Dec(pw[m]), rs)
    ensures MayCopy(t0, t, p, rs, Dec(pw[m]))
  {
    hide Enc, Dec, Get, Seen, Walks, Possible, ChosenList, PreservedFrom, AddsAt, ToldBefore, ToldAlways, Unpreserved,
      PassedBy;
    var w := Dec(pw[m]);
    PlatformPath(t, p, rs, tw, pw, m);
    if ToldAlways(t0, t, p, rs, w) { ToldInEveryOrder(t0, t, p, rs, tw, pw, m); }
    ListsOfWalks(t, p, rs, tw, pw);
    var n := PossibleIsChosen(t0, t, p, rs, tw, pw);
    PreservedMeans(t0, t, p, rs);
    var k, i := NotSeenIsHidden(t, p, rs, tw, w);
    var k' := ChosenIndex(t0, t, p, rs, NoRank, tw, n, w);
    GetPrefix(p, Parent(w), w);
    HiddenTogether(t0, t, p, rs, tw, n, i, k);
    HidesFromBeside(t0, t, p, rs, tw, pw, m, Dec(tw[i]));
  }

  /** What hides an empty collection that is copied is beside it, not beside anything above it. */
  lemma HidesFromBeside(t0: Json, t: Json, p: Json, rs: seq<string>, tw: seq<string>, pw: seq<string>, m: nat,
                        x: Position)
    requires Walks(t, p, rs, tw, pw) && m < |pw| && Takes(t, p, rs, tw, pw, m) && AddsAt(t, p, rs, x)
    requires x != [] && x != Dec(pw[m]) && |x| <= |Dec(pw[m])| && Parent(x) <= Dec(pw[m]) && Enc(x) <= Enc(Dec(pw[m]))
    requires |x| < |Dec(pw[m])| ==> !Seen(t, p, rs, tw, Enc(Dec(pw[m])[..|x|]))
    ensures HiddenBySibling(t, p, rs, Dec(pw[m]))
  {
    hide Enc, Dec, Get, Seen, Walks, AddsAt, ToldBefore;
    var w := Dec(pw[m]);
    var z := w[..|x|];
    if |x| < |w| {
      assert z < w;
      ToldAbove(t, p, rs, tw, pw, m, z);
    }
    assert Siblings(x, w);
  }

  /** And one that is not copied in some order may be skipped. */
  lemma SkippedIsSkippable(t0: Json, t: Json, p: Json, rs: seq<string>, tw: seq<string>, pw: seq<string>, m: nat)
    requires PreservedFrom(t0, t, p, rs) && Possible(t0, t, p, rs, tw, pw) && Walks(t, p, rs, tw, pw)
    requires m < |pw| && !Takes(t, p, rs, tw, pw, m) && CommonEmpty(t, p, Dec(pw[m]))
    ensures MaySkip(t0, t, p, rs, Dec(pw[m]))
  {
    hide Enc, Dec, Get, Seen, Walks, Possible, ChosenList, PreservedFrom, AddsAt, ToldBefore, ToldAtAll, HiddenAlways;
    var w := Dec(pw[m]);
    PlatformPath(t, p, rs, tw, pw, m);
    if ToldBefore(t, p, rs, tw, pw, m, pw[m]) { ToldIsTellable(t, p, rs, tw, pw, m); }
    var n := PossibleIsChosen(t0, t, p, rs, tw, pw);
    if HiddenAlways(t0, t, p, rs, w) { HiddenIsNotSeen(t0, t, p, rs, NoRank, tw, n, w); }
  }
}
