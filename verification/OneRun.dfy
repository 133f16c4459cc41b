/** Exactly when one run is enough: when a further comparison of the template with the document that a comparison
    ended with finds nothing to do. Nothing is assumed about hidden paths, preserved ones included. */
module OneRun {
  import opened Wrappers
  import opened Text
  import opened Documents
  import opened Pointers
  import opened Merging
  import opened Walking
  import opened Arranging
  import opened Preparing
  import opened Platform
  import opened Comparison
  import opened Changes
  import opened Laws
  import opened Hiding
  import opened Exactness
  import opened Convergence
  import opened Choices
  import opened Orders
  import opened Agreement

  // ---- when nothing is to be done ----

  /** The documents are in sync, and what only the template has is neither at an immutable field nor preserved. */
  ghost predicate SyncedWith(kind: string, t: Json, d: Json, rs: seq<string>) {
    Synced(kind, t, d) && forall q :: OnlyIn(t, d, q) ==> !AnyPrefix(rs, Enc(q))
  }

  /** What a position must be like for documents in sync. */
  ghost predicate Fits(kind: string, t: Json, d: Json, rs: seq<string>, q: Position) {
    && (Has(t, q) && Has(d, q) ==> LabelAt(t, q) == LabelAt(d, q))
    && (OnlyIn(t, d, q) ==> Get(t, q) == Some(Str("")) && HoldsObject(t, Parent(q)) &&
                            Enc(q) !in ImmutableFields(kind) && !AnyPrefix(rs, Enc(q)))
    && (OnlyIn(d, t, q) ==> EmptyCollection(Get(d, q).value) && HoldsObject(t, Parent(q)))
  }

  lemma AllFit(kind: string, t: Json, d: Json, rs: seq<string>)
    requires forall q :: Fits(kind, t, d, rs, q)
    ensures SyncedWith(kind, t, d, rs)
  {
    hide Enc, Get, AnyPrefix, ImmutableFields, InSync, OnlyIn;
    AllFitInSync(kind, t, d, rs);
    forall q | OnlyIn(t, d, q) ensures Enc(q) !in ImmutableFields(kind) && !AnyPrefix(rs, Enc(q)) {
      assert Fits(kind, t, d, rs, q);
    }
  }

  lemma AllFitInSync(kind: string, t: Json, d: Json, rs: seq<string>)
    requires forall q :: Fits(kind, t, d, rs, q)
    ensures InSync(t, d)
  {
    hide Enc, Get, AnyPrefix, ImmutableFields, EmptyCollection;
    forall q | Has(t, q) && Has(d, q) ensures LabelAt(t, q) == LabelAt(d, q) { assert Fits(kind, t, d, rs, q); }
    forall q | OnlyIn(t, d, q) ensures Get(t, q) == Some(Str("")) && HoldsObject(t, Parent(q)) {
      assert Fits(kind, t, d, rs, q);
    }
    forall q | OnlyIn(d, t, q) ensures EmptyCollection(Get(d, q).value) && HoldsObject(t, Parent(q)) {
      assert Fits(kind, t, d, rs, q);
    }
  }

  /** A position that the template adds is covered by a copy, if the comparison ends where it began. */
  lemma AddedIsCovered(t: Json, d: Json, rs: seq<string>, tw: seq<string>, pw: seq<string>, x: Position)
    requires Walks(t, d, rs, tw, pw) && Final(t, d, rs, tw, pw, d) && AddsAt(t, d, rs, x)
    ensures x != [] && Parent(x) != [] && Has(t, Parent(x)) && Has(d, Parent(x))
    ensures EmptyCollection(Get(d, Parent(x)).value)
    ensures !Seen(t, d, rs, tw, Enc(Parent(x)))
  {
    hide Enc, Dec, Get, Seen, ToldBefore, Walks, DroppedAmong, AnyPrefix;
    NeverDropped(t, d, rs, tw, |tw|, x);
    NotAdded(t, d, x);
    GetPrefix(t, Parent(x), x);
    HasLabel(d, x);
    HasLabel(t, x);
    assert Taken(t, d, rs, tw, pw, |pw|, x);
    var m :| 0 <= m < |pw| && Takes(t, d, rs, tw, pw, m) && Dec(pw[m]) <= x;
    PlatformPath(t, d, rs, tw, pw, m);
    AtOrAbove(Dec(pw[m]), x);
    OnlyItself(d, Dec(pw[m]), Parent(x));
  }

  lemma AtOrAbove(w: Position, q: Position)
    requires w <= q && q != []
    ensures w == q || w <= Parent(q)
  {
    assert w == q[..|w|] && q == q[..|q|];
  }

  /** But then the copied collection was hidden by another added position, which nothing can cover. */
  lemma NothingIsAdded(t: Json, d: Json, rs: seq<string>, tw: seq<string>, pw: seq<string>, x: Position)
    requires Walks(t, d, rs, tw, pw) && Final(t, d, rs, tw, pw, d)
    ensures !AddsAt(t, d, rs, x)
  {
    hide Enc, Dec, Get, Seen, Walks, AddsAt, Final, PassedBy;
    if AddsAt(t, d, rs, x) {
      AddedIsCovered(t, d, rs, tw, pw, x);
      ListsOfWalks(t, d, rs, tw, pw);
      var k, m := NotSeenIsHidden(t, d, rs, tw, Parent(x));
      var a := Dec(tw[m]);
      AddedIsCovered(t, d, rs, tw, pw, a);
      BesideOrAbove(a, Parent(x));
      OnlyItself(d, Parent(a), Parent(x));
    }
  }

  /** Where nothing is added, all of the template is compared, and nothing is copied over it. */
  lemma AllIsCompared(t: Json, d: Json, rs: seq<string>, tw: seq<string>, q: Position)
    requires Lists(tw, t, d, rs) && q != [] && Has(t, q) && forall x :: !AddsAt(t, d, rs, x)
    ensures Seen(t, d, rs, tw, Enc(q))
  {
    hide Enc, Dec, Get, Lists, AddsAt, Seen, PassedBy;
    if !Seen(t, d, rs, tw, Enc(q)) { var k, m := NotSeenIsHidden(t, d, rs, tw, q); }
  }

  lemma NothingIsCovered(t: Json, d: Json, rs: seq<string>, tw: seq<string>, pw: seq<string>, q: Position)
    requires Walks(t, d, rs, tw, pw) && Has(t, q) && forall x :: !AddsAt(t, d, rs, x)
    ensures !Taken(t, d, rs, tw, pw, |pw|, q)
  {
    hide Enc, Dec, Get, Walks, AddsAt, Seen, ToldBefore;
    forall m | 0 <= m < |pw| && Takes(t, d, rs, tw, pw, m) ensures !(Dec(pw[m]) <= q) {
      PlatformPath(t, d, rs, tw, pw, m);
      ListsOfWalks(t, d, rs, tw, pw);
      if Dec(pw[m]) <= q {
        GetPrefix(t, Dec(pw[m]), q);
        AllIsCompared(t, d, rs, tw, Dec(pw[m]));
      }
    }
  }

  lemma UnchangedIsSynced(kind: string, t: Json, d: Json, rs: seq<string>, tw: seq<string>, pw: seq<string>)
    requires Walks(t, d, rs, tw, pw) && Final(t, d, rs, tw, pw, d) && DropsMembersOnly(t, d)
    requires !MismatchAmong(kind, t, d, rs, tw, |tw|)
    ensures SyncedWith(kind, t, d, rs)
  {
    hide Get, Walks, Final, DropsMembersOnly, AddsAt, MismatchAmong, Fits, SyncedWith;
    forall x ensures !AddsAt(t, d, rs, x) { NothingIsAdded(t, d, rs, tw, pw, x); }
    forall q ensures Fits(kind, t, d, rs, q) { UnchangedFits(kind, t, d, rs, tw, pw, q); }
    AllFit(kind, t, d, rs);
  }

  lemma UnchangedFits(kind: string, t: Json, d: Json, rs: seq<string>, tw: seq<string>, pw: seq<string>, q: Position)
    requires Walks(t, d, rs, tw, pw) && Final(t, d, rs, tw, pw, d) && DropsMembersOnly(t, d)
    requires !MismatchAmong(kind, t, d, rs, tw, |tw|) && forall x :: !AddsAt(t, d, rs, x)
    ensures Fits(kind, t, d, rs, q)
  {
    hide Enc, Get, Walks, Taken, DroppedAmong, DropsMembersOnly, AddsAt, MismatchAmong, ImmutableFields, AnyPrefix;
    if Has(t, q) {
      NothingIsCovered(t, d, rs, tw, pw, q);
      NeverDropped(t, d, rs, tw, |tw|, q);
      HasLabel(d, q);
      HasLabel(t, q);
    }
    if OnlyIn(t, d, q) {
      DroppedIsOpen(kind, t, d, rs, tw, q);
      DropsFromObjects(t, d, q);
    }
    if OnlyIn(d, t, q) { CoveredOnPlatform(t, d, rs, tw, pw, q); }
  }

  /** What is dropped is neither an immutable field nor preserved. */
  lemma DroppedIsOpen(kind: string, t: Json, p: Json, rs: seq<string>, tw: seq<string>, q: Position)
    requires DroppedAmong(t, p, rs, tw, |tw|, q) && !MismatchAmong(kind, t, p, rs, tw, |tw|)
    ensures Dropped(t, p, q) && Enc(q) !in ImmutableFields(kind) && !AnyPrefix(rs, Enc(q))
  {
    hide Enc, Dec, Get, PassedBy, ImmutableFields, AnyPrefix;
    var k :| 0 <= k < |tw| && tw[k] == Enc(q) && Dropped(t, p, q) && !LeftAlone(t, p, rs, tw, k);
    DecEnc(q);
    assert !Mismatch(kind, t, p, Dec(tw[k]));
  }

  lemma CoveredOnPlatform(t: Json, d: Json, rs: seq<string>, tw: seq<string>, pw: seq<string>, q: Position)
    requires Walks(t, d, rs, tw, pw) && Final(t, d, rs, tw, pw, d) && OnlyIn(d, t, q)
    ensures EmptyCollection(Get(d, q).value) && HoldsObject(t, Parent(q))
  {
    hide Enc, Dec, Get, Seen, ToldBefore, PlainAnnotations, Lists, DroppedAmong;
    HasLabel(d, q);
    HasLabel(t, q);
    assert Taken(t, d, rs, tw, pw, |pw|, q);
    var m :| 0 <= m < |pw| && Takes(t, d, rs, tw, pw, m) && Dec(pw[m]) <= q;
    PlatformPath(t, d, rs, tw, pw, m);
    OnlyItself(d, Dec(pw[m]), q);
    assert Kept(t, d, q);
  }

  /** In documents that are in sync, nothing is passed over. */
  lemma SyncedIsUnspoiled(kind: string, t: Json, d: Json, rs: seq<string>, tw: seq<string>, pw: seq<string>)
    requires Walks(t, d, rs, tw, pw) && SyncedWith(kind, t, d, rs)
    ensures NothingSpoiled(t, d, rs, tw, pw) && !MismatchAmong(kind, t, d, rs, tw, |tw|)
  {
    hide Enc, Dec, Get, Walks, Taken, Tells, Takes, LeftAlone, Mismatch, SyncedWith, CopyAgrees, Kept, Dropped;
    forall k | 0 <= k < |tw| ensures !(Dropped(t, d, Dec(tw[k])) && LeftAlone(t, d, rs, tw, k)) {
      SyncedDrops(kind, t, d, rs, tw, pw, k);
    }
    forall m | 0 <= m < |pw|
      ensures !Tells(t, d, rs, tw, pw, m) && (Takes(t, d, rs, tw, pw, m) ==> CopyAgrees(t, d, Dec(pw[m])))
    {
      SyncedTells(kind, t, d, rs, tw, pw, m);
    }
    assert Synced(kind, t, d) by { SyncedMeans(kind, t, d, rs); }
    SyncedHasNoMismatch(kind, t, d);
  }

  lemma SyncedMeans(kind: string, t: Json, d: Json, rs: seq<string>)
    requires SyncedWith(kind, t, d, rs)
    ensures Synced(kind, t, d) && InSync(t, d) && forall x :: !AddsAt(t, d, rs, x)
    ensures forall q :: Dropped(t, d, q) ==> !AnyPrefix(rs, Enc(q))
  {
    hide Enc, AnyPrefix, ImmutableFields, Get;
    forall x ensures !AddsAt(t, d, rs, x) { InSyncAddsNothing(kind, t, d, rs, x); }
  }

  lemma SyncedDrops(kind: string, t: Json, d: Json, rs: seq<string>, tw: seq<string>, pw: seq<string>, k: nat)
    requires Walks(t, d, rs, tw, pw) && SyncedWith(kind, t, d, rs) && k < |tw|
    ensures !(Dropped(t, d, Dec(tw[k])) && LeftAlone(t, d, rs, tw, k))
  {
    hide Enc, Dec, Get, Walks, AnyPrefix, PassedBy, Lists, SyncedWith, AddsAt, InSync, Synced;
    ListsOfWalks(t, d, rs, tw, pw);
    SyncedMeans(kind, t, d, rs);
    NotYetDropped(t, d, rs, tw, k);
    if PassedBy(t, d, rs, tw, k) { var m := HiddenBefore(t, d, rs, tw, k); }
  }

  lemma SyncedTells(kind: string, t: Json, d: Json, rs: seq<string>, tw: seq<string>, pw: seq<string>, m: nat)
    requires Walks(t, d, rs, tw, pw) && SyncedWith(kind, t, d, rs) && m < |pw|
    ensures !Tells(t, d, rs, tw, pw, m) && (Takes(t, d, rs, tw, pw, m) ==> CopyAgrees(t, d, Dec(pw[m])))
  {
    hide Enc, Dec, Get, Walks, Seen, ToldBefore, Lists, SyncedWith, AddsAt, Synced, Merge;
    PlatformPath(t, d, rs, tw, pw, m);
    ListsOfWalks(t, d, rs, tw, pw);
    SyncedMeans(kind, t, d, rs);
    if Has(t, Dec(pw[m])) {
      AllIsCompared(t, d, rs, tw, Dec(pw[m]));
    } else {
      InSyncTops(t, d, Dec(pw[m]));
    }
  }

  lemma InSyncAddsNothing(kind: string, t: Json, d: Json, rs: seq<string>, x: Position)
    requires Synced(kind, t, d)
    ensures !AddsAt(t, d, rs, x)
  {
  }

  lemma SyncedHasNoMismatch(kind: string, t: Json, d: Json)
    requires Synced(kind, t, d)
    ensures !AnyMismatch(kind, t, d)
  {
    forall q ensures !Mismatch(kind, t, d, q) {
      if q != [] && Has(t, q) && Has(d, q) && !IsCollection(Get(t, q).value) { SameScalar(d, t, q); }
    }
  }

  /** A comparison finds nothing to do, in whatever order it walks the documents, exactly when they are in sync and
      what only the template has is neither at an immutable field nor preserved. So if one order finds nothing to do,
      no order finds anything. */
  lemma NothingToDoExactlyIf(kind: string, name: string, pKind: string, pName: string, t: Json, d: Json,
                             rs: seq<string>, tw: seq<string>, pw: seq<string>, allowRecreate: bool)
    requires Lists(tw, t, d, rs) && IsWalk(pw, d) && PlainAnnotations(d)
    requires DropsMembersOnly(t, d) && KeepsMembersOnly(t, d)
    ensures LoopsOutcome(kind, name, pKind, pName, t, d, rs, tw, pw, allowRecreate) ==
            Success([NewChange(kind, name, d, d)])
       <==> SyncedWith(kind, t, d, rs)
  {
    hide IsWalk, Lists, MismatchAmong, DropsMembersOnly, KeepsMembersOnly, PlainAnnotations, LoopsOutcome, Final,
      FinalDocument, NothingSpoiled, SyncedWith, Merge, Walks;
    AreWalks(t, d, rs, tw, pw);
    LoopsEndFinal(kind, name, pKind, pName, t, d, rs, tw, pw, allowRecreate);
    if SyncedWith(kind, t, d, rs) {
      SyncedIsUnspoiled(kind, t, d, rs, tw, pw);
      SyncedMerges(kind, t, d, rs);
      OutcomeIsMergeExactlyIf(kind, name, pKind, pName, t, d, rs, tw, pw, allowRecreate);
    } else if !MismatchAmong(kind, t, d, rs, tw, |tw|) && Final(t, d, rs, tw, pw, d) {
      UnchangedIsSynced(kind, t, d, rs, tw, pw);
    }
  }

  lemma AreWalks(t: Json, d: Json, rs: seq<string>, tw: seq<string>, pw: seq<string>)
    requires Lists(tw, t, d, rs) && IsWalk(pw, d) && PlainAnnotations(d) && KeepsMembersOnly(t, d)
    ensures Walks(t, d, rs, tw, pw)
  {
    hide IsWalk, Lists;
    WalkLists(pw, d, t);
  }

  lemma SyncedMerges(kind: string, t: Json, d: Json, rs: seq<string>)
    requires SyncedWith(kind, t, d, rs)
    ensures Merge(t, d) == d
  {
    InSyncIffMergeUnchanged(t, d);
  }

  // ---- the document that a comparison ends with ----

  /** No immutable field of the template is below w, and nothing that is preserved. */
  ghost predicate NothingFixedBelow(kind: string, t: Json, rs: seq<string>, w: Position) {
    forall q :: w < q && Has(t, q) ==> Enc(q) !in ImmutableFields(kind) && !AnyPrefix(rs, Enc(q))
  }

  /** Copying the platform's value to w is what merging would have done, and covers nothing that is fixed. */
  ghost predicate Harmless(kind: string, t: Json, p: Json, rs: seq<string>, w: Position) {
    CopyAgrees(t, p, w) && NothingFixedBelow(kind, t, rs, w)
  }

  ghost predicate CopiesAreHarmless(kind: string, t: Json, p: Json, rs: seq<string>, tw: seq<string>, pw: seq<string>) {
    forall m :: 0 <= m < |pw| && Takes(t, p, rs, tw, pw, m) ==> Harmless(kind, t, p, rs, Dec(pw[m]))
  }

  lemma CopiedValue(t: Json, p: Json, rs: seq<string>, tw: seq<string>, pw: seq<string>, d: Json, m: nat)
    requires Walks(t, p, rs, tw, pw) && Final(t, p, rs, tw, pw, d) && m < |pw| && Takes(t, p, rs, tw, pw, m)
    ensures Get(d, Dec(pw[m])) == Get(p, Dec(pw[m])) && Has(p, Dec(pw[m])) && EmptyCollection(Get(p, Dec(pw[m])).value)
    ensures Dec(pw[m]) != []
  {
    hide Enc, Dec, Seen, ToldBefore, DroppedAmong, Walks;
    var w := Dec(pw[m]);
    PlatformPath(t, p, rs, tw, pw, m);
    forall s ensures LabelAt(d, w + s) == LabelAt(p, w + s) { assert Dec(pw[m]) <= w + s; }
    SameBelow(d, p, w);
  }

  /** A taken position that the platform has is the copied one itself. */
  lemma TakenAt(t: Json, p: Json, rs: seq<string>, tw: seq<string>, pw: seq<string>, d: Json, q: Position)
    returns (m: nat)
    requires Walks(t, p, rs, tw, pw) && Final(t, p, rs, tw, pw, d) && Taken(t, p, rs, tw, pw, |pw|, q)
    ensures m < |pw| && Takes(t, p, rs, tw, pw, m) && Dec(pw[m]) <= q && LabelAt(d, q) == LabelAt(p, q)
    ensures Has(p, q) ==> Dec(pw[m]) == q
  {
    hide Enc, Dec, Takes, DroppedAmong, Walks;
    m :| 0 <= m < |pw| && Takes(t, p, rs, tw, pw, m) && Dec(pw[m]) <= q;
    CopiedValue(t, p, rs, tw, pw, d, m);
    if Has(p, q) { OnlyItself(p, Dec(pw[m]), q); }
  }

  lemma CommonAtEnd(kind: string, t: Json, p: Json, rs: seq<string>, tw: seq<string>, pw: seq<string>, d: Json,
                    q: Position)
    requires Walks(t, p, rs, tw, pw) && Final(t, p, rs, tw, pw, d) && CopiesAreHarmless(kind, t, p, rs, tw, pw)
    requires Has(t, q) && Has(d, q)
    ensures LabelAt(t, q) == LabelAt(d, q)
  {
    hide Enc, Dec, Get, Takes, Taken, DroppedAmong, Walks, NothingFixedBelow, CopyAgrees;
    if Taken(t, p, rs, tw, pw, |pw|, q) {
      var m := TakenAt(t, p, rs, tw, pw, d, q);
      CopiedValue(t, p, rs, tw, pw, d, m);
      LabelHere(t, p, q);
    }
  }

  lemma TemplateOnlyAtEnd(kind: string, t: Json, p: Json, rs: seq<string>, tw: seq<string>, pw: seq<string>, d: Json,
                          q: Position)
    requires Walks(t, p, rs, tw, pw) && Final(t, p, rs, tw, pw, d) && CopiesAreHarmless(kind, t, p, rs, tw, pw)
    requires DropsMembersOnly(t, p) && !MismatchAmong(kind, t, p, rs, tw, |tw|)
    requires OnlyIn(t, d, q)
    ensures Get(t, q) == Some(Str("")) && HoldsObject(t, Parent(q))
    ensures Enc(q) !in ImmutableFields(kind) && !AnyPrefix(rs, Enc(q))
  {
    hide Enc, Get, Taken, Walks, DroppedAmong, MismatchAmong, ImmutableFields, AnyPrefix, CopiesAreHarmless,
      DropsMembersOnly;
    if Taken(t, p, rs, tw, pw, |pw|, q) {
      CoveredAtEnd(kind, t, p, rs, tw, pw, d, q);
    } else {
      DroppedIsOpen(kind, t, p, rs, tw, q);
      DropsFromObjects(t, p, q);
    }
  }

  /** What a harmless copy covers is an empty string in an object. */
  lemma CoveredAtEnd(kind: string, t: Json, p: Json, rs: seq<string>, tw: seq<string>, pw: seq<string>, d: Json,
                     q: Position)
    requires Walks(t, p, rs, tw, pw) && Final(t, p, rs, tw, pw, d) && CopiesAreHarmless(kind, t, p, rs, tw, pw)
    requires OnlyIn(t, d, q) && Taken(t, p, rs, tw, pw, |pw|, q)
    ensures Get(t, q) == Some(Str("")) && HoldsObject(t, Parent(q))
    ensures Enc(q) !in ImmutableFields(kind) && !AnyPrefix(rs, Enc(q))
  {
    hide Enc, Dec, Get, Takes, Taken, Walks, CopyAgrees, Final, ImmutableFields, AnyPrefix;
    var m := TakenAt(t, p, rs, tw, pw, d, q);
    var w := Dec(pw[m]);
    CopiedValue(t, p, rs, tw, pw, d, m);
    AtOrAbove(w, q);
    assert Harmless(kind, t, p, rs, w);
    GetPrefix(t, w, q);
    CoveredIsDropped(t, p, w, q);
  }

  lemma PlatformOnlyAtEnd(t: Json, p: Json, rs: seq<string>, tw: seq<string>, pw: seq<string>, d: Json, q: Position)
    requires Walks(t, p, rs, tw, pw) && Final(t, p, rs, tw, pw, d) && OnlyIn(d, t, q)
    ensures EmptyCollection(Get(d, q).value) && HoldsObject(t, Parent(q))
  {
    hide Enc, Dec, Get, Takes, Taken, DroppedAmong, PlainAnnotations, Lists;
    HasLabel(d, q);
    HasLabel(t, q);
    var m := TakenAt(t, p, rs, tw, pw, d, q);
    CopiedValue(t, p, rs, tw, pw, d, m);
    HasLabel(p, q);
    GetLast(p, q);
    assert Kept(t, p, q);
  }

  lemma HarmlessIsSynced(kind: string, t: Json, p: Json, rs: seq<string>, tw: seq<string>, pw: seq<string>, d: Json)
    requires Walks(t, p, rs, tw, pw) && Final(t, p, rs, tw, pw, d) && DropsMembersOnly(t, p)
    requires !MismatchAmong(kind, t, p, rs, tw, |tw|) && CopiesAreHarmless(kind, t, p, rs, tw, pw)
    ensures SyncedWith(kind, t, d, rs)
  {
    hide Enc, Get, Walks, Final, DropsMembersOnly, CopiesAreHarmless, MismatchAmong, ImmutableFields, AnyPrefix,
      SyncedWith;
    forall q ensures Fits(kind, t, d, rs, q) {
      if Has(t, q) && Has(d, q) { CommonAtEnd(kind, t, p, rs, tw, pw, d, q); }
      if OnlyIn(t, d, q) { TemplateOnlyAtEnd(kind, t, p, rs, tw, pw, d, q); }
      if OnlyIn(d, t, q) { PlatformOnlyAtEnd(t, p, rs, tw, pw, d, q); }
    }
    AllFit(kind, t, d, rs);
  }

  lemma SyncedIsHarmless(kind: string, t: Json, p: Json, rs: seq<string>, tw: seq<string>, pw: seq<string>, d: Json)
    requires Walks(t, p, rs, tw, pw) && Final(t, p, rs, tw, pw, d) && SyncedWith(kind, t, d, rs)
    ensures CopiesAreHarmless(kind, t, p, rs, tw, pw)
  {
    hide Enc, Dec, Get, Walks, Final, Takes, InSync, Merge, ImmutableFields, AnyPrefix;
    InSyncIffMergeUnchanged(t, d);
    forall m | 0 <= m < |pw| && Takes(t, p, rs, tw, pw, m) ensures Harmless(kind, t, p, rs, Dec(pw[m])) {
      var w := Dec(pw[m]);
      CopiedValue(t, p, rs, tw, pw, d, m);
      if Has(t, w) && Has(p, w) { MergeAt(t, d, w); }
      forall q | w < q && Has(t, q) ensures Enc(q) !in ImmutableFields(kind) && !AnyPrefix(rs, Enc(q)) {
        BelowEmpty(d, w, q);
        InSyncTops(t, d, q);
      }
    }
  }

  lemma PlainAtEnd(t: Json, p: Json, rs: seq<string>, tw: seq<string>, pw: seq<string>, d: Json)
    requires Walks(t, p, rs, tw, pw) && Final(t, p, rs, tw, pw, d) && PlainAnnotations(t)
    ensures PlainAnnotations(d)
  {
    hide Enc, Dec, Get, Takes, Taken, DroppedAmong, Lists, KeepsMembersOnly;
    if Has(d, ANNOTATIONS) {
      if Taken(t, p, rs, tw, pw, |pw|, ANNOTATIONS) {
        var m := TakenAt(t, p, rs, tw, pw, d, ANNOTATIONS);
        CopiedValue(t, p, rs, tw, pw, d, m);
      } else {
        var a := Get(d, ANNOTATIONS).value;
        assert LabelAt(d, ANNOTATIONS) == LabelAt(t, ANNOTATIONS);
        forall k | k in a.fields ensures !IsCollection(a.fields[k]) {
          AnnotationSteps(d, k);
          AnnotationSteps(t, k);
          AnnotationNotTaken(t, p, rs, tw, pw, d, k);
        }
      }
    }
  }

  lemma AnnotationNotTaken(t: Json, p: Json, rs: seq<string>, tw: seq<string>, pw: seq<string>, d: Json, k: string)
    requires Walks(t, p, rs, tw, pw) && Final(t, p, rs, tw, pw, d) && Has(d, AnnotationAt(k))
    requires !Taken(t, p, rs, tw, pw, |pw|, ANNOTATIONS)
    ensures LabelAt(d, AnnotationAt(k)) == LabelAt(t, AnnotationAt(k))
  {
    hide Enc, Dec, Get, Takes, Taken, Lists, KeepsMembersOnly;
    var a := AnnotationAt(k);
    assert Parent(a) == ANNOTATIONS;
    if Taken(t, p, rs, tw, pw, |pw|, a) {
      var m := TakenAt(t, p, rs, tw, pw, d, a);
      CopiedValue(t, p, rs, tw, pw, d, m);
      NotAnAnnotation(p, a);
    }
  }

  lemma KeptAtEnd(t: Json, p: Json, rs: seq<string>, tw: seq<string>, pw: seq<string>, d: Json)
    requires Walks(t, p, rs, tw, pw) && Final(t, p, rs, tw, pw, d)
    ensures KeepsMembersOnly(t, d)
  {
    hide Get, Walks, Final;
    forall q | Kept(t, d, q) ensures HoldsObject(t, Parent(q)) { PlatformOnlyAtEnd(t, p, rs, tw, pw, d, q); }
  }

  /** What a further comparison would drop was to be dropped before. */
  lemma DropsAtEnd(t: Json, p: Json, rs: seq<string>, tw: seq<string>, pw: seq<string>, d: Json)
    requires Walks(t, p, rs, tw, pw) && Final(t, p, rs, tw, pw, d) && DropsMembersOnly(t, p)
    ensures DropsMembersOnly(t, d)
  {
    hide Get, Walks, DroppedAmong, Taken;
    forall q | Dropped(t, d, q) ensures HoldsObject(t, Parent(q)) {
      HasLabel(d, q);
      HasLabel(p, q);
      HasLabel(p, Parent(q));
      HasLabel(d, Parent(q));
      NeverDropped(t, p, rs, tw, |tw|, q);
      if Taken(t, p, rs, tw, pw, |pw|, q) {
        var m := TakenAt(t, p, rs, tw, pw, d, q);
        CopiedValue(t, p, rs, tw, pw, d, m);
        AtOrAbove(Dec(pw[m]), q);
        GetPrefix(d, Dec(pw[m]), Parent(q));
        OnlyItself(d, Dec(pw[m]), Parent(q));
      }
      assert Dropped(t, p, q);
    }
  }

  /** One run is enough, exactly: a comparison that no immutable field stops, however much the raw prefix tests
      passed over, leads to a document with which no further comparison, in any order, finds anything to do, if and
      only if its copies were harmless. */
  lemma OneRunIsEnoughExactlyIf(kind: string, name: string, pKind: string, pName: string, t: Json, p: Json,
                                rs: seq<string>, tw: seq<string>, pw: seq<string>, allowRecreate: bool)
    requires Lists(tw, t, p, rs) && IsWalk(pw, p) && PlainAnnotations(t) && PlainAnnotations(p)
    requires DropsMembersOnly(t, p) && KeepsMembersOnly(t, p) && !MismatchAmong(kind, t, p, rs, tw, |tw|)
    ensures var d := FinalDocument(kind, t, p, rs, tw, pw);
            && LoopsOutcome(kind, name, pKind, pName, t, p, rs, tw, pw, allowRecreate) ==
               Success([NewChange(kind, name, d, p)])
            && forall tw', pw' :: Lists(tw', t, d, rs) && IsWalk(pw', d) ==>
                                    (LoopsOutcome(kind, name, pKind, pName, t, d, rs, tw', pw', allowRecreate) ==
                                     Success([NewChange(kind, name, d, d)])
                                     <==> CopiesAreHarmless(kind, t, p, rs, tw, pw))
  {
    hide IsWalk, PlainAnnotations, DropsMembersOnly, KeepsMembersOnly, MismatchAmong, LoopsOutcome, FinalDocument,
      Final, Lists, CopiesAreHarmless, SyncedWith, Walks;
    var d := FinalDocument(kind, t, p, rs, tw, pw);
    AreWalks(t, p, rs, tw, pw);
    LoopsEndFinal(kind, name, pKind, pName, t, p, rs, tw, pw, allowRecreate);
    PlainAtEnd(t, p, rs, tw, pw, d);
    KeptAtEnd(t, p, rs, tw, pw, d);
    DropsAtEnd(t, p, rs, tw, pw, d);
    if CopiesAreHarmless(kind, t, p, rs, tw, pw) { HarmlessIsSynced(kind, t, p, rs, tw, pw, d); }
    if SyncedWith(kind, t, d, rs) { SyncedIsHarmless(kind, t, p, rs, tw, pw, d); }
    forall tw', pw' | Lists(tw', t, d, rs) && IsWalk(pw', d)
      ensures LoopsOutcome(kind, name, pKind, pName, t, d, rs, tw', pw', allowRecreate) ==
              Success([NewChange(kind, name, d, d)])
         <==> CopiesAreHarmless(kind, t, p, rs, tw, pw)
    {
      NothingToDoExactlyIf(kind, name, pKind, pName, t, d, rs, tw', pw', allowRecreate);
    }
  }

  /** In whatever order the first run walks the documents, its copies are harmless: as a condition on the documents. */
  lemma AnyRunIsEnoughExactlyIf(kind: string, t0: Json, t: Json, p: Json, rs: seq<string>)
    requires PreservedFrom(t0, t, p, rs) && PlainAnnotations(p) && KeepsMembersOnly(t, p)
    ensures (forall tw, pw :: Possible(t0, t, p, rs, tw, pw) ==> CopiesAreHarmless(kind, t, p, rs, tw, pw)) <==>
            forall w :: CommonEmpty(t, p, w) && MayCopy(t0, t, p, rs, w) ==> Harmless(kind, t, p, rs, w)
  {
    hide Enc, Dec, Get, PreservedFrom, Possible, Harmless, MayCopy, CommonEmpty, Walks, Takes, PlainAnnotations,
      KeepsMembersOnly;
    if forall tw, pw :: Possible(t0, t, p, rs, tw, pw) ==> CopiesAreHarmless(kind, t, p, rs, tw, pw) {
      forall w | CommonEmpty(t, p, w) && MayCopy(t0, t, p, rs, w) ensures Harmless(kind, t, p, rs, w) {
        var tw, pw, m := CopyingOrder(t0, t, p, rs, w) by { MayCopyMeans(t0, t, p, rs, w); }
      }
    }
    if forall w :: CommonEmpty(t, p, w) && MayCopy(t0, t, p, rs, w) ==> Harmless(kind, t, p, rs, w) {
      forall tw, pw, m | Possible(t0, t, p, rs, tw, pw) && 0 <= m < |pw| && Takes(t, p, rs, tw, pw, m)
        ensures Harmless(kind, t, p, rs, Dec(pw[m]))
      {
        PossibleWalks(t0, t, p, rs, tw, pw);
        CopiedIsHarmless(kind, t0, t, p, rs, tw, pw, m);
      }
    }
  }

  lemma MayCopyMeans(t0: Json, t: Json, p: Json, rs: seq<string>, w: Position)
    requires MayCopy(t0, t, p, rs, w)
    ensures HiddenBySibling(t, p, rs, w) && !ToldAlways(t0, t, p, rs, w)
  {
    hide HiddenBySibling, ToldAlways;
  }

  lemma CopiedIsHarmless(kind: string, t0: Json, t: Json, p: Json, rs: seq<string>, tw: seq<string>, pw: seq<string>,
                         m: nat)
    requires PreservedFrom(t0, t, p, rs) && Possible(t0, t, p, rs, tw, pw) && Walks(t, p, rs, tw, pw)
    requires m < |pw| && Takes(t, p, rs, tw, pw, m)
    requires CommonEmpty(t, p, Dec(pw[m])) && MayCopy(t0, t, p, rs, Dec(pw[m])) ==> Harmless(kind, t, p, rs, Dec(pw[m]))
    ensures Harmless(kind, t, p, rs, Dec(pw[m]))
  {
    hide Enc, Dec, Get, PreservedFrom, Possible, MayCopy, Walks, Unpreserved, CopyAgrees, ImmutableFields, AnyPrefix,
      Seen, ToldBefore;
    var w := Dec(pw[m]);
    PlatformPath(t, p, rs, tw, pw, m);
    if Has(t, w) && Unpreserved(w, rs) {
      CopiedIsCopyable(t0, t, p, rs, tw, pw, m);
    } else {
      if Has(t, w) { PreservedAgrees(t0, t, p, rs, w); }
      CopyableAgrees(t0, t, p, rs, tw, pw, m);
      forall q | w < q ensures !Has(t, q) {
        if Has(t, w) { BelowEmpty(t, w, q); } else { BelowMissing(t, w, q); }
      }
    }
  }
}
