/** Exactly when a comparison ends in the merged document: what the raw prefix tests of both loops pass over,
    and what that spoils. */
module Exactness {
  import opened Wrappers
  import opened Text
  import opened Documents
  import opened Pointers
  import opened Merging
  import opened Walking
  import opened Preparing
  import opened Platform
  import opened Comparison
  import opened Loops
  import opened Changes
  import opened Laws
  import opened Hiding

  /** What the two loops start from: two prepared documents, the template's path list and a walk of the
      platform's document. */
  ghost predicate Walks(t: Json, p: Json, rs: seq<string>, tw: seq<string>, pw: seq<string>) {
    Lists(tw, t, p, rs) && Lists(pw, p, t, []) && PlainAnnotations(p) && KeepsMembersOnly(t, p)
  }

  /** The template's loop has compared the path x. */
  predicate Seen(t: Json, p: Json, rs: seq<string>, tw: seq<string>, x: string) {
    SeenAmong(t, p, rs, tw, |tw|, x)
  }

  /** The platform's loop takes the m-th path for one that only the platform has, and reports it. */
  predicate Tells(t: Json, p: Json, rs: seq<string>, tw: seq<string>, pw: seq<string>, m: nat)
    requires m < |pw|
  {
    var v := Get(p, Dec(pw[m]));
    && !Seen(t, p, rs, tw, pw[m]) && v.Some? && v.value != Null && !EmptyCollection(v.value) &&
       pw[m] != Enc(ANNOTATIONS)
  }

  /** A reported path before the n-th is a string prefix of x. */
  predicate ToldBefore(t: Json, p: Json, rs: seq<string>, tw: seq<string>, pw: seq<string>, n: nat, x: string)
    requires n <= |pw|
  {
    exists m :: 0 <= m < n && Tells(t, p, rs, tw, pw, m) && pw[m] <= x
  }

  /** The platform's loop copies the empty collection at the m-th path into the template. */
  predicate Takes(t: Json, p: Json, rs: seq<string>, tw: seq<string>, pw: seq<string>, m: nat)
    requires m < |pw|
  {
    var v := Get(p, Dec(pw[m]));
    !Seen(t, p, rs, tw, pw[m]) && !ToldBefore(t, p, rs, tw, pw, m, pw[m]) && v.Some? && EmptyCollection(v.value)
  }

  /** q is at or below a position whose empty collection was copied. */
  ghost predicate Taken(t: Json, p: Json, rs: seq<string>, tw: seq<string>, pw: seq<string>, n: nat, q: Position)
    requires n <= |pw|
  {
    exists m :: 0 <= m < n && Takes(t, p, rs, tw, pw, m) && Dec(pw[m]) <= q
  }

  ghost predicate TakenAre(t: Json, p: Json, rs: seq<string>, tw: seq<string>, pw: seq<string>, n: nat, mid: Json,
                           config: Json)
    requires n <= |pw|
  {
    forall q :: LabelAt(config, q) == if Taken(t, p, rs, tw, pw, n, q) then LabelAt(p, q) else LabelAt(mid, q)
  }

  ghost predicate ToldAre(t: Json, p: Json, rs: seq<string>, tw: seq<string>, pw: seq<string>, n: nat,
                          deleted: seq<string>)
    requires n <= |pw|
  {
    forall x :: AnyPrefix(deleted, x) <==> ToldBefore(t, p, rs, tw, pw, n, x)
  }

  ghost predicate SeenYet(t: Json, p: Json, rs: seq<string>, tw: seq<string>, pw: seq<string>, n: nat,
                          compared: set<string>)
    requires n <= |pw|
  {
    forall k :: n <= k < |pw| ==> (pw[k] in compared <==> Seen(t, p, rs, tw, pw[k]))
  }

  /** What the platform's loop has done with the first n paths, starting from the document mid. */
  ghost predicate AfterBoth(t: Json, p: Json, rs: seq<string>, tw: seq<string>, pw: seq<string>, n: nat, mid: Json,
                            s: Completion)
    requires n <= |pw|
  {
    && s.Completing? && TakenAre(t, p, rs, tw, pw, n, mid, s.config)
    && ToldAre(t, p, rs, tw, pw, n, s.deleted) && SeenYet(t, p, rs, tw, pw, n, s.compared)
  }

  // ---- one more path ----

  lemma ToldNext(t: Json, p: Json, rs: seq<string>, tw: seq<string>, pw: seq<string>, n: nat, x: string)
    requires n < |pw|
    ensures ToldBefore(t, p, rs, tw, pw, n + 1, x) <==>
            ToldBefore(t, p, rs, tw, pw, n, x) || (Tells(t, p, rs, tw, pw, n) && pw[n] <= x)
  {
    hide Tells;
  }

  lemma ToldThrough(t: Json, p: Json, rs: seq<string>, tw: seq<string>, pw: seq<string>, n: nat, x: string)
    requires n < |pw| && ToldBefore(t, p, rs, tw, pw, n, pw[n]) && pw[n] <= x
    ensures ToldBefore(t, p, rs, tw, pw, n, x)
  {
    hide Tells;
    var m :| 0 <= m < n && Tells(t, p, rs, tw, pw, m) && pw[m] <= pw[n];
    assert pw[m] <= x;
  }

  lemma TakenNext(t: Json, p: Json, rs: seq<string>, tw: seq<string>, pw: seq<string>, n: nat, q: Position)
    requires n < |pw|
    ensures Taken(t, p, rs, tw, pw, n + 1, q) <==>
            Taken(t, p, rs, tw, pw, n, q) || (Takes(t, p, rs, tw, pw, n) && Dec(pw[n]) <= q)
  {
    hide Takes, Dec;
  }

  /** A path that is neither reported nor copied changes nothing. */
  lemma NothingHappens(t: Json, p: Json, rs: seq<string>, tw: seq<string>, pw: seq<string>, n: nat, mid: Json,
                       s: Completion)
    requires n < |pw| && AfterBoth(t, p, rs, tw, pw, n, mid, s) && !Takes(t, p, rs, tw, pw, n)
    requires Tells(t, p, rs, tw, pw, n) ==> ToldBefore(t, p, rs, tw, pw, n, pw[n])
    ensures AfterBoth(t, p, rs, tw, pw, n + 1, mid, s)
  {
    hide Tells, Takes, Taken, ToldBefore, Seen, Dec, AnyPrefix;
    forall x ensures ToldBefore(t, p, rs, tw, pw, n + 1, x) <==> ToldBefore(t, p, rs, tw, pw, n, x) {
      ToldNext(t, p, rs, tw, pw, n, x);
      if Tells(t, p, rs, tw, pw, n) && pw[n] <= x { ToldThrough(t, p, rs, tw, pw, n, x); }
    }
    forall q { TakenNext(t, p, rs, tw, pw, n, q); }
  }

  lemma NoMoreTaken(t: Json, p: Json, rs: seq<string>, tw: seq<string>, pw: seq<string>, n: nat, mid: Json,
                    config: Json)
    requires n < |pw| && TakenAre(t, p, rs, tw, pw, n, mid, config) && !Takes(t, p, rs, tw, pw, n)
    ensures TakenAre(t, p, rs, tw, pw, n + 1, mid, config)
  {
    hide Takes, Taken, Get;
    forall q
      ensures Taken(t, p, rs, tw, pw, n + 1, q) <==> Taken(t, p, rs, tw, pw, n, q)
    {
      TakenNext(t, p, rs, tw, pw, n, q);
    }
  }

  lemma ToldOneMore(t: Json, p: Json, rs: seq<string>, tw: seq<string>, pw: seq<string>, n: nat, deleted: seq<string>)
    requires n < |pw| && ToldAre(t, p, rs, tw, pw, n, deleted) && Tells(t, p, rs, tw, pw, n)
    ensures ToldAre(t, p, rs, tw, pw, n + 1, deleted + [pw[n]])
  {
    hide Tells, ToldBefore, AnyPrefix;
    forall x ensures AnyPrefix(deleted + [pw[n]], x) <==> ToldBefore(t, p, rs, tw, pw, n + 1, x) {
      ToldNext(t, p, rs, tw, pw, n, x);
      AnyPrefixGrows(deleted, pw[n], x);
    }
  }

  lemma PathTold(t: Json, p: Json, rs: seq<string>, tw: seq<string>, pw: seq<string>, n: nat, mid: Json, s: Completion)
    requires n < |pw| && AfterBoth(t, p, rs, tw, pw, n, mid, s) && Tells(t, p, rs, tw, pw, n)
    requires !Takes(t, p, rs, tw, pw, n)
    requires forall k :: n < k < |pw| ==> pw[k] != pw[n]
    ensures AfterBoth(t, p, rs, tw, pw, n + 1, mid, Completing(s.config, s.compared + {pw[n]}, s.deleted + [pw[n]]))
  {
    hide Tells, Takes, TakenAre, ToldAre, Seen;
    NoMoreTaken(t, p, rs, tw, pw, n, mid, s.config);
    ToldOneMore(t, p, rs, tw, pw, n, s.deleted);
  }

  // ---- copying an empty collection ----

  /** Nothing above a position of the platform is copied. */
  lemma NotTakenAbove(t: Json, p: Json, rs: seq<string>, tw: seq<string>, pw: seq<string>, n: nat, q: Position)
    requires n <= |pw| && Has(p, q) && forall m :: 0 <= m < n ==> pw[m] != Enc(q)
    requires forall m :: 0 <= m < n ==> pw[m] == Enc(Dec(pw[m]))
    ensures !Taken(t, p, rs, tw, pw, n, q)
  {
    hide Enc, Dec, Seen, ToldBefore;
    forall m | 0 <= m < n && Takes(t, p, rs, tw, pw, m) ensures !(Dec(pw[m]) <= q) {
      var at := Dec(pw[m]);
      assert pw[m] == Enc(at) && pw[m] != Enc(q);
      if at <= q {
        assert at == q[..|at|] && q == q[..|q|];
        if |at| < |q| { BelowEmpty(p, at, q); }
      }
    }
  }

  /** A position that only the platform has has not been compared. */
  lemma NotSeen(t: Json, p: Json, rs: seq<string>, tw: seq<string>, q: Position)
    requires Lists(tw, t, p, rs) && !Has(t, q) && Has(p, q)
    ensures !Seen(t, p, rs, tw, Enc(q))
  {
    hide Enc, Dec, Get, PassedBy, AnyPrefix;
    forall k | 0 <= k < |tw| ensures tw[k] != Enc(q) {
      DecEnc(q);
      assert ListsPath(tw[k], t, p, rs);
    }
  }

  /** An empty collection whose parent only the platform has is below a reported path. */
  lemma ParentTold(t: Json, p: Json, rs: seq<string>, tw: seq<string>, pw: seq<string>, n: nat)
    requires Walks(t, p, rs, tw, pw) && n < |pw| && Has(p, Dec(pw[n])) && EmptyCollection(Get(p, Dec(pw[n])).value)
    requires !Has(t, Parent(Dec(pw[n])))
    ensures ToldBefore(t, p, rs, tw, pw, n, pw[n])
  {
    hide Enc, Dec, Get, Seen, PlainAnnotations;
    var q := Dec(pw[n]);
    var up := Parent(q);
    PlatformPath(t, p, rs, tw, pw, n);
    NotEmpty(p, up, q);
    NotAnAnnotation(p, q);
    NotSeen(t, p, rs, tw, up);
    DecEnc(up);
    DecEnc(ANNOTATIONS);
    assert Get(t, []) == Some(t) by { RootIsThere(t); }
    assert up == q[..|q| - 1] && Enc(up) in pw[..n];
    var m :| 0 <= m < n && pw[m] == Enc(up);
    EncPrefixOfDescendant(up, q);
    assert Tells(t, p, rs, tw, pw, m);
  }

  lemma PlatformPath(t: Json, p: Json, rs: seq<string>, tw: seq<string>, pw: seq<string>, n: nat)
    requires Walks(t, p, rs, tw, pw) && n < |pw|
    ensures pw[n] == Enc(Dec(pw[n])) && Dec(pw[n]) != [] && Has(p, Dec(pw[n]))
    ensures AncestorsIn(Dec(pw[n]), [], pw[..n]) && forall m :: 0 <= m < |pw| && m != n ==> pw[m] != pw[n]
  {
    hide Enc, Dec, Get;
    assert ListsPath(pw[n], p, t, []) && !AnyPrefix([], pw[n]);
  }

  /** The copy succeeds, and changes what it should. */
  lemma PathTaken(t: Json, p: Json, rs: seq<string>, tw: seq<string>, pw: seq<string>, n: nat, mid: Json, s: Completion)
    requires Walks(t, p, rs, tw, pw) && n < |pw| && AfterBoth(t, p, rs, tw, pw, n, mid, s) && Takes(t, p, rs, tw, pw, n)
    requires DropsAre(t, p, rs, tw, |tw|, mid)
    ensures var edited := Set(s.config, Dec(pw[n]), Get(p, Dec(pw[n])).value);
            edited.Some? && AfterBoth(t, p, rs, tw, pw, n + 1, mid, s.(config := edited.value))
  {
    hide Enc, Dec, Get, Set, Takes, ToldBefore, Seen, Tells, Walks, DropsAre, AnyPrefix, TakenAre;
    CopyOne(t, p, rs, tw, pw, n, mid, s.config);
    TakesOrTells(t, p, rs, tw, pw, n);
    forall x { ToldNext(t, p, rs, tw, pw, n, x); }
  }

  lemma CopyOne(t: Json, p: Json, rs: seq<string>, tw: seq<string>, pw: seq<string>, n: nat, mid: Json, config: Json)
    requires Walks(t, p, rs, tw, pw) && n < |pw| && TakenAre(t, p, rs, tw, pw, n, mid, config)
    requires Takes(t, p, rs, tw, pw, n)
    requires DropsAre(t, p, rs, tw, |tw|, mid)
    ensures var edited := Set(config, Dec(pw[n]), Get(p, Dec(pw[n])).value);
            edited.Some? && TakenAre(t, p, rs, tw, pw, n + 1, mid, edited.value)
  {
    hide Enc, Dec, Get, Set, Taken, Takes, Walks, DropsAre;
    PlatformPath(t, p, rs, tw, pw, n);
    var q := Dec(pw[n]);
    var v := Get(p, q).value;
    CopyIsPossible(t, p, rs, tw, pw, n, mid, config);
    SetEffect(config, q, v);
    var edited := Set(config, q, v).value;
    forall x
      ensures LabelAt(edited, x) == if Taken(t, p, rs, tw, pw, n + 1, x) then LabelAt(p, x) else LabelAt(mid, x)
    {
      TakenNext(t, p, rs, tw, pw, n, x);
      if q <= x { LabelFrom(p, q, x); }
    }
  }

  lemma TakesOrTells(t: Json, p: Json, rs: seq<string>, tw: seq<string>, pw: seq<string>, n: nat)
    requires n < |pw| && Takes(t, p, rs, tw, pw, n)
    ensures !Tells(t, p, rs, tw, pw, n)
  {
  }

  lemma LabelFrom(p: Json, q: Position, x: Position)
    requires Has(p, q) && q <= x
    ensures LabelAt(p, x) == LabelAt(Get(p, q).value, x[|q|..])
  {
    GetConcat(p, q, x[|q|..]);
    assert q + x[|q|..] == x;
  }

  lemma CopyIsPossible(t: Json, p: Json, rs: seq<string>, tw: seq<string>, pw: seq<string>, n: nat, mid: Json,
                       config: Json)
    requires Walks(t, p, rs, tw, pw) && n < |pw| && TakenAre(t, p, rs, tw, pw, n, mid, config)
    requires Takes(t, p, rs, tw, pw, n)
    requires DropsAre(t, p, rs, tw, |tw|, mid)
    ensures Has(config, Parent(Dec(pw[n]))) && (HoldsObject(config, Parent(Dec(pw[n]))) || Has(config, Dec(pw[n])))
  {
    hide Enc, Dec, Taken, ToldBefore, Seen, DroppedAmong, PlainAnnotations;
    var q := Dec(pw[n]);
    var up := Parent(q);
    PlatformPath(t, p, rs, tw, pw, n);
    if !Has(t, up) { ParentTold(t, p, rs, tw, pw, n); }
    GetPrefix(p, up, q);
    NotTakenHere(t, p, rs, tw, pw, n);
    NeverDropped(t, p, rs, tw, |tw|, q);
    NeverDropped(t, p, rs, tw, |tw|, up);
    assert LabelAt(config, q) == LabelAt(t, q) && LabelAt(config, up) == LabelAt(t, up);
    if !Has(t, q) { assert Kept(t, p, q); }
  }

  lemma NotTakenHere(t: Json, p: Json, rs: seq<string>, tw: seq<string>, pw: seq<string>, n: nat)
    requires Walks(t, p, rs, tw, pw) && n < |pw|
    ensures !Taken(t, p, rs, tw, pw, n, Dec(pw[n])) && !Taken(t, p, rs, tw, pw, n, Parent(Dec(pw[n])))
  {
    hide Enc, Dec, Get, Takes, ToldBefore, Seen, Walks;
    PlatformPath(t, p, rs, tw, pw, n);
    var q := Dec(pw[n]);
    var up := Parent(q);
    forall m | 0 <= m < n ensures pw[m] == Enc(Dec(pw[m])) && pw[m] != pw[n] { PlatformPath(t, p, rs, tw, pw, m); }
    NotTakenAbove(t, p, rs, tw, pw, n, q);
    assert up <= q;
  }

  // ---- the platform's loop ----

  /** One step of the loop. */
  lemma StepBoth(t: Json, p: Json, rs: seq<string>, tw: seq<string>, pw: seq<string>, n: nat, mid: Json, s: Completion)
    requires Walks(t, p, rs, tw, pw) && n < |pw| && AfterBoth(t, p, rs, tw, pw, n, mid, s)
    requires DropsAre(t, p, rs, tw, |tw|, mid)
    ensures AfterBoth(t, p, rs, tw, pw, n + 1, mid, PlatformStep(p, s, pw[n]))
  {
    hide Enc, Dec, Get, Set, Walks, AfterBoth, ToldBefore, Seen, AnyPrefix, DropsAre, EmptyCollection;
    PlatformPath(t, p, rs, tw, pw, n);
    AfterBothMeans(t, p, rs, tw, pw, n, mid, s);
    var v := Get(p, Dec(pw[n])).value;
    EmptyCases(v);
    NullIsNotEmpty(v);
    if pw[n] == Enc(ANNOTATIONS) { AnnotationsAreObject(t, p, rs, tw, pw, n); }
    if Takes(t, p, rs, tw, pw, n) {
      PathTaken(t, p, rs, tw, pw, n, mid, s);
    } else if Tells(t, p, rs, tw, pw, n) && !ToldBefore(t, p, rs, tw, pw, n, pw[n]) {
      PathTold(t, p, rs, tw, pw, n, mid, s);
    } else {
      NothingHappens(t, p, rs, tw, pw, n, mid, s);
    }
  }

  lemma NullIsNotEmpty(v: Json)
    ensures v == Null ==> !EmptyCollection(v)
  {
  }

  lemma AfterBothMeans(t: Json, p: Json, rs: seq<string>, tw: seq<string>, pw: seq<string>, n: nat, mid: Json,
                       s: Completion)
    requires n < |pw| && AfterBoth(t, p, rs, tw, pw, n, mid, s)
    ensures s.Completing? && (AnyPrefix(s.deleted, pw[n]) <==> ToldBefore(t, p, rs, tw, pw, n, pw[n]))
    ensures pw[n] in s.compared <==> Seen(t, p, rs, tw, pw[n])
  {
    hide ToldBefore, Seen, AnyPrefix, TakenAre;
  }

  lemma AnnotationsAreObject(t: Json, p: Json, rs: seq<string>, tw: seq<string>, pw: seq<string>, n: nat)
    requires Walks(t, p, rs, tw, pw) && n < |pw| && pw[n] == Enc(ANNOTATIONS)
    ensures Get(p, Dec(pw[n])).Some? && Get(p, Dec(pw[n])).value.Obj?
  {
    hide Get;
    PlatformPath(t, p, rs, tw, pw, n);
    DecEnc(ANNOTATIONS);
  }

  /** The whole of the platform's loop, whatever the order of the paths. */
  lemma {:induction false} PlatformLoopExact(t: Json, p: Json, rs: seq<string>, tw: seq<string>, pw: seq<string>,
                                             n: nat, mid: Json, compared: set<string>)
    requires Walks(t, p, rs, tw, pw) && n <= |pw| && DropsAre(t, p, rs, tw, |tw|, mid)
    requires SeenAre(t, p, rs, tw, |tw|, compared)
    ensures AfterBoth(t, p, rs, tw, pw, n, mid, PlatformLoop(mid, compared, p, pw[..n]))
  {
    hide Walks, AfterBoth, DropsAre, PlatformLoop, PlatformStep, SeenAre;
    if n == 0 {
      NothingCompleted(mid, compared, p, pw);
      BeforeAny(t, p, rs, tw, pw, mid, compared);
    } else {
      PlatformLoopExact(t, p, rs, tw, pw, n - 1, mid, compared);
      var s := PlatformLoop(mid, compared, p, pw[..n - 1]);
      AfterBothMeans(t, p, rs, tw, pw, n - 1, mid, s);
      PlatformLoopNext(mid, compared, p, pw, n - 1);
      StepBoth(t, p, rs, tw, pw, n - 1, mid, s);
    }
  }

  lemma BeforeAny(t: Json, p: Json, rs: seq<string>, tw: seq<string>, pw: seq<string>, mid: Json, compared: set<string>)
    requires SeenAre(t, p, rs, tw, |tw|, compared)
    ensures AfterBoth(t, p, rs, tw, pw, 0, mid, Completing(mid, compared, []))
  {
    hide Get, Tells, Takes, SeenAmong, ToldAre, SeenAre, Seen, SeenYet;
    NothingToldYet(t, p, rs, tw, pw);
    SeenFromTheStart(t, p, rs, tw, pw, compared);
  }

  lemma NothingToldYet(t: Json, p: Json, rs: seq<string>, tw: seq<string>, pw: seq<string>)
    ensures ToldAre(t, p, rs, tw, pw, 0, [])
  {
    hide Tells;
  }

  lemma SeenFromTheStart(t: Json, p: Json, rs: seq<string>, tw: seq<string>, pw: seq<string>, compared: set<string>)
    requires SeenAre(t, p, rs, tw, |tw|, compared)
    ensures SeenYet(t, p, rs, tw, pw, 0, compared)
  {
    hide SeenAmong;
  }

  // ---- the merged document ----

  /** Nothing that matters is passed over: a path to be dropped only inside a copied collection, no empty
      collection that is to be copied, and nothing that both sides have is overwritten by a copy that merging
      would not put there. */
  ghost predicate NothingSpoiled(t: Json, p: Json, rs: seq<string>, tw: seq<string>, pw: seq<string>) {
    && (forall k :: 0 <= k < |tw| && Dropped(t, p, Dec(tw[k])) && LeftAlone(t, p, rs, tw, k) ==>
                      Taken(t, p, rs, tw, pw, |pw|, Dec(tw[k])))
    && (forall m :: 0 <= m < |pw| && Kept(t, p, Dec(pw[m])) ==> !ToldBefore(t, p, rs, tw, pw, m, pw[m]))
    && (forall m :: 0 <= m < |pw| && Takes(t, p, rs, tw, pw, m) ==> CopyAgrees(t, p, Dec(pw[m])))
  }

  /** Where both sides have q, merging yields what the platform has. */
  predicate CopyAgrees(t: Json, p: Json, q: Position) {
    Has(t, q) && Has(p, q) ==> Merge(Get(t, q).value, Get(p, q).value) == Get(p, q).value
  }

  /** The document that the loops end with, read position by position. */
  ghost predicate Final(t: Json, p: Json, rs: seq<string>, tw: seq<string>, pw: seq<string>, config: Json) {
    forall q :: LabelAt(config, q) ==
                if Taken(t, p, rs, tw, pw, |pw|, q) then LabelAt(p, q)
                else if DroppedAmong(t, p, rs, tw, |tw|, q) then None
                else LabelAt(t, q)
  }

  lemma FinalFrom(t: Json, p: Json, rs: seq<string>, tw: seq<string>, pw: seq<string>, mid: Json, s: Completion)
    requires AfterBoth(t, p, rs, tw, pw, |pw|, mid, s) && DropsAre(t, p, rs, tw, |tw|, mid)
    ensures s.Completing? && Final(t, p, rs, tw, pw, s.config)
  {
    hide Taken, DroppedAmong, ToldAre, SeenYet;
  }

  /** Where a kept position stands in the platform's walk. */
  lemma PlatformIndex(t: Json, p: Json, rs: seq<string>, tw: seq<string>, pw: seq<string>, q: Position) returns (m: nat)
    requires Walks(t, p, rs, tw, pw) && q != [] && Has(p, q)
    ensures m < |pw| && pw[m] == Enc(q) && Dec(pw[m]) == q
  {
    hide Enc, Dec, Get;
    DecEnc(q);
    assert Enc(q) in pw;
    m :| 0 <= m < |pw| && pw[m] == Enc(q);
  }

  /** An empty collection only the platform has is copied unless a reported path is a prefix of it. */
  lemma KeptIsTaken(t: Json, p: Json, rs: seq<string>, tw: seq<string>, pw: seq<string>, m: nat)
    requires Walks(t, p, rs, tw, pw) && m < |pw| && Kept(t, p, Dec(pw[m]))
    ensures Taken(t, p, rs, tw, pw, |pw|, Dec(pw[m])) <==> !ToldBefore(t, p, rs, tw, pw, m, pw[m])
  {
    hide Enc, Dec, ToldBefore, Seen;
    var q := Dec(pw[m]);
    PlatformPath(t, p, rs, tw, pw, m);
    NotSeen(t, p, rs, tw, q);
    if !ToldBefore(t, p, rs, tw, pw, m, pw[m]) {
      assert Takes(t, p, rs, tw, pw, m);
    } else {
      forall k | 0 <= k < |pw| && Takes(t, p, rs, tw, pw, k) ensures !(Dec(pw[k]) <= q) {
        PlatformPath(t, p, rs, tw, pw, k);
        OnlyItself(p, Dec(pw[k]), q);
      }
    }
  }

  lemma OnlyItself(p: Json, at: Position, q: Position)
    requires Has(p, at) && EmptyCollection(Get(p, at).value) && Has(p, q)
    ensures at <= q ==> at == q
  {
    if at <= q {
      assert at == q[..|at|] && q == q[..|q|];
      if |at| < |q| { BelowEmpty(p, at, q); }
    }
  }

  /** Below a copied position, merging yields what the platform has, if the copy agrees. */
  lemma TakenLabel(t: Json, p: Json, rs: seq<string>, tw: seq<string>, pw: seq<string>, m: nat, q: Position)
    requires Walks(t, p, rs, tw, pw) && DropsMembersOnly(t, p) && m < |pw| && Takes(t, p, rs, tw, pw, m)
    requires Dec(pw[m]) <= q
    requires CopyAgrees(t, p, Dec(pw[m]))
    ensures LabelAt(Merge(t, p), q) == LabelAt(p, q)
  {
    hide Enc, Dec, Seen, ToldBefore, Merge;
    var at := Dec(pw[m]);
    PlatformPath(t, p, rs, tw, pw, m);
    if Has(t, at) {
      MergeAt(t, p, at);
    } else {
      if !Has(t, Parent(at)) { ParentTold(t, p, rs, tw, pw, m); }
      GetPrefix(p, Parent(at), at);
      MergedKept(t, p, at);
    }
    LabelFrom(p, at, q);
    LabelFrom(Merge(t, p), at, q);
  }

  lemma MergedKept(t: Json, p: Json, at: Position)
    requires DropsMembersOnly(t, p) && KeepsMembersOnly(t, p) && Kept(t, p, at)
    ensures Get(Merge(t, p), at) == Get(p, at)
  {
    hide Merge;
    forall s ensures LabelAt(Merge(t, p), at + s) == LabelAt(p, at + s) {
      MergeLabels(t, p, at + s);
      if s == [] {
        assert at + s == at;
      } else {
        assert at < at + s;
        BelowEmpty(p, at, at + s);
        BelowMissing(t, at, at + s);
      }
    }
    SameBelow(Merge(t, p), p, at);
  }

  /** If nothing is spoiled, the loops end with the merged document. */
  lemma UnspoiledIsMerge(t: Json, p: Json, rs: seq<string>, tw: seq<string>, pw: seq<string>, config: Json)
    requires Walks(t, p, rs, tw, pw) && DropsMembersOnly(t, p) && Final(t, p, rs, tw, pw, config)
    requires NothingSpoiled(t, p, rs, tw, pw)
    ensures config == Merge(t, p)
  {
    hide Enc, Dec, Get, Merge, Takes, ToldBefore, DroppedAmong, LeftAlone, CopyAgrees, Walks;
    forall q ensures LabelAt(config, q) == LabelAt(Merge(t, p), q) {
      LabelsAgree(t, p, rs, tw, pw, config, q);
    }
    SameLabels(config, Merge(t, p));
  }

  lemma LabelsAgree(t: Json, p: Json, rs: seq<string>, tw: seq<string>, pw: seq<string>, config: Json, q: Position)
    requires Walks(t, p, rs, tw, pw) && DropsMembersOnly(t, p) && Final(t, p, rs, tw, pw, config)
    requires NothingSpoiled(t, p, rs, tw, pw)
    ensures LabelAt(config, q) == LabelAt(Merge(t, p), q)
  {
    hide Enc, Dec, Get, Merge, Takes, ToldBefore, DroppedAmong, LeftAlone, CopyAgrees;
    if Taken(t, p, rs, tw, pw, |pw|, q) {
      var m :| 0 <= m < |pw| && Takes(t, p, rs, tw, pw, m) && Dec(pw[m]) <= q;
      TakenLabel(t, p, rs, tw, pw, m, q);
    } else {
      MergeLabels(t, p, q);
      NeverDropped(t, p, rs, tw, |tw|, q);
      if Kept(t, p, q) {
        var m := PlatformIndex(t, p, rs, tw, pw, q);
        KeptIsTaken(t, p, rs, tw, pw, m);
      }
      if Dropped(t, p, q) {
        DroppedIsThere(t, p, q);
        var k := IndexIn(t, p, rs, tw, q);
        OnceOnly(t, p, rs, tw, k);
        DroppedIff(t, p, rs, tw, k);
      }
    }
  }

  /** If the loops end with the merged document, nothing is spoiled. */
  lemma MergeIsUnspoiled(t: Json, p: Json, rs: seq<string>, tw: seq<string>, pw: seq<string>)
    requires Walks(t, p, rs, tw, pw) && DropsMembersOnly(t, p) && Final(t, p, rs, tw, pw, Merge(t, p))
    ensures NothingSpoiled(t, p, rs, tw, pw)
  {
    hide Enc, Dec, Get, Merge, Takes, Taken, ToldBefore, DroppedAmong, LeftAlone, CopyAgrees;
    forall k | 0 <= k < |tw| && Dropped(t, p, Dec(tw[k])) && LeftAlone(t, p, rs, tw, k)
      ensures Taken(t, p, rs, tw, pw, |pw|, Dec(tw[k]))
    {
      NotYetDropped(t, p, rs, tw, k);
      OnceOnly(t, p, rs, tw, k);
      DroppedIff(t, p, rs, tw, k);
      MergeLabels(t, p, Dec(tw[k]));
      HasLabel(t, Dec(tw[k]));
    }
    forall m | 0 <= m < |pw| && Kept(t, p, Dec(pw[m])) ensures !ToldBefore(t, p, rs, tw, pw, m, pw[m]) {
      KeptIsTaken(t, p, rs, tw, pw, m);
      MergeLabels(t, p, Dec(pw[m]));
      NeverDropped(t, p, rs, tw, |tw|, Dec(pw[m]));
      KeptLabels(t, p, Dec(pw[m]));
    }
    forall m | 0 <= m < |pw| && Takes(t, p, rs, tw, pw, m) ensures CopyAgrees(t, p, Dec(pw[m])) {
      CopiedAgrees(t, p, rs, tw, pw, m);
    }
  }

  lemma HasLabel(t: Json, q: Position)
    ensures LabelAt(t, q) != None <==> Has(t, q)
  {
  }

  lemma KeptLabels(t: Json, p: Json, q: Position)
    ensures Kept(t, p, q) ==> LabelAt(t, q) == None && LabelAt(p, q) != None && !Dropped(t, p, q)
  {
  }

  lemma CopiedAgrees(t: Json, p: Json, rs: seq<string>, tw: seq<string>, pw: seq<string>, m: nat)
    requires Walks(t, p, rs, tw, pw) && Final(t, p, rs, tw, pw, Merge(t, p)) && m < |pw| && Takes(t, p, rs, tw, pw, m)
    ensures CopyAgrees(t, p, Dec(pw[m]))
  {
    hide Enc, Dec, Merge, Takes, DroppedAmong, Walks;
    var at := Dec(pw[m]);
    if Has(t, at) && Has(p, at) {
      forall s ensures LabelAt(Merge(t, p), at + s) == LabelAt(p, at + s) {
        assert Dec(pw[m]) <= at + s;
      }
      SameBelow(Merge(t, p), p, at);
      MergeAt(t, p, at);
    }
  }

  /** The refinement, exactly: given any path list of the template and any walk of the platform's document, a
      comparison ends with one change to the merged document if and only if no mismatch at an immutable field
      is found and nothing is spoiled. */
  lemma OutcomeIsMergeExactlyIf(kind: string, name: string, pKind: string, pName: string, t: Json, p: Json,
                                rs: seq<string>, tw: seq<string>, pw: seq<string>, allowRecreate: bool)
    requires Lists(tw, t, p, rs) && IsWalk(pw, p) && PlainAnnotations(p)
    requires DropsMembersOnly(t, p) && KeepsMembersOnly(t, p)
    ensures LoopsOutcome(kind, name, pKind, pName, t, p, rs, tw, pw, allowRecreate) ==
            Success([NewChange(kind, name, Merge(t, p), p)])
       <==> !MismatchAmong(kind, t, p, rs, tw, |tw|) && NothingSpoiled(t, p, rs, tw, pw)
  {
    hide IsWalk, Lists, MismatchAmong, DropsMembersOnly, KeepsMembersOnly, TemplateLoop, PlatformLoop, Merge,
      NothingSpoiled, Final, PlainAnnotations;
    LoopsEndFinal(kind, name, pKind, pName, t, p, rs, tw, pw, allowRecreate);
    if !MismatchAmong(kind, t, p, rs, tw, |tw|) {
      var d := FinalDocument(kind, t, p, rs, tw, pw);
      WalkLists(pw, p, t);
      if NothingSpoiled(t, p, rs, tw, pw) { UnspoiledIsMerge(t, p, rs, tw, pw, d); }
      if d == Merge(t, p) { MergeIsUnspoiled(t, p, rs, tw, pw); }
    }
  }

  /** The document that the loops end with. */
  function FinalDocument(kind: string, t: Json, p: Json, rs: seq<string>, tw: seq<string>, pw: seq<string>): Json {
    match TemplateLoop(kind, t, p, rs, tw)
    case Going(config, compared, _) =>
      (match PlatformLoop(config, compared, p, pw)
       case Completing(d, _, _) => d
       case Broken(_) => t)
    case _ => t
  }

  /** What a comparison comes to: it stops at an immutable field if a mismatch is found; otherwise it ends with
      one change to a document that is known position by position. */
  lemma LoopsEndFinal(kind: string, name: string, pKind: string, pName: string, t: Json, p: Json, rs: seq<string>,
                      tw: seq<string>, pw: seq<string>, allowRecreate: bool)
    requires Lists(tw, t, p, rs) && IsWalk(pw, p) && PlainAnnotations(p)
    requires DropsMembersOnly(t, p) && KeepsMembersOnly(t, p)
    ensures var r := LoopsOutcome(kind, name, pKind, pName, t, p, rs, tw, pw, allowRecreate);
            if MismatchAmong(kind, t, p, rs, tw, |tw|) then StopsAtField(allowRecreate, r)
            else
              && r == Success([NewChange(kind, name, FinalDocument(kind, t, p, rs, tw, pw), p)])
              && Final(t, p, rs, tw, pw, FinalDocument(kind, t, p, rs, tw, pw))
  {
    hide IsWalk, Lists, MismatchAmong, DropsMembersOnly, KeepsMembersOnly, TemplateLoop, PlatformLoop, AfterBoth,
      DropsAre, SeenAre, AddedAre, Final, PlainAnnotations;
    MismatchFoundUnlessLeftAlone(kind, t, p, rs, tw);
    WalkLists(pw, p, t);
    LoopExact(kind, t, p, rs, tw, |tw|);
    assert tw[..|tw|] == tw && pw[..|pw|] == pw;
    var first := TemplateLoop(kind, t, p, rs, tw);
    if first.Going? {
      PlatformLoopExact(t, p, rs, tw, pw, |pw|, first.config, first.compared);
      FinalFrom(t, p, rs, tw, pw, first.config, PlatformLoop(first.config, first.compared, p, pw));
    }
  }

  /** A comparison stopped at an immutable field: two changes where recreating is allowed, a refusal otherwise. */
  predicate StopsAtField(allowRecreate: bool, r: Outcome) {
    if allowRecreate then r.Success? && |r.value| == 2 else r.Failure? && r.error.Immutable?
  }

  // ---- a simple condition that no order can spoil ----

  /** Where nothing is hidden, only what is below an added position is passed over. */
  lemma PassedByIsMissing(t: Json, p: Json, rs: seq<string>, tw: seq<string>, k: nat)
    requires Lists(tw, t, p, rs) && NothingHidden(t, p, rs) && k < |tw| && PassedBy(t, p, rs, tw, k)
    ensures Dec(tw[k]) != [] && !Has(p, Dec(tw[k])) && (Has(t, Dec(tw[k])) ==> !Has(p, Parent(Dec(tw[k]))))
  {
    hide Enc, Dec, Get, AnyPrefix;
    var q := Dec(tw[k]);
    NotYetDropped(t, p, rs, tw, k);
    var m :| 0 <= m < k && Adds(t, p, rs, tw[m]) && tw[m] <= tw[k];
    NotYetDropped(t, p, rs, tw, m);
    OnceOnly(t, p, rs, tw, m);
    var x := Dec(tw[m]);
    if Has(t, q) {
      assert !Hides(x, q) && tw[m] == Enc(x) && tw[k] == Enc(q);
      StrictlyBelow(x, q);
      if Has(p, Parent(q)) { GetPrefix(p, x, Parent(q)); }
      if Has(p, q) { GetPrefix(p, x, q); }
    }
  }

  lemma StrictlyBelow(x: Position, q: Position)
    requires Enc(x) <= Enc(q) && Enc(x) != Enc(q) && !Hides(x, q) && q != []
    ensures x <= q && x <= Parent(q)
  {
    hide Enc;
    assert q[..|q|] == q && x == q[..|x|];
  }

  /** Where nothing is hidden, what was not compared is on one side only. */
  lemma NotSeenIsMissing(t: Json, p: Json, rs: seq<string>, tw: seq<string>, q: Position)
    requires Lists(tw, t, p, rs) && NothingHidden(t, p, rs) && q != [] && Has(p, q) && !Seen(t, p, rs, tw, Enc(q))
    ensures !Has(t, q)
  {
    hide Enc, Dec, Get, PassedBy, NothingHidden, Lists;
    if Has(t, q) {
      var k := IndexIn(t, p, rs, tw, q);
      if PassedBy(t, p, rs, tw, k) { PassedByIsMissing(t, p, rs, tw, k); }
    }
  }

  lemma ToldIsReported(t: Json, p: Json, rs: seq<string>, tw: seq<string>, pw: seq<string>, m: nat)
    requires Walks(t, p, rs, tw, pw) && NothingHidden(t, p, rs) && m < |pw| && Tells(t, p, rs, tw, pw, m)
    ensures Reported(t, p, Dec(pw[m])) && pw[m] == Enc(Dec(pw[m]))
  {
    hide Enc, Dec, Seen, NothingHidden;
    PlatformPath(t, p, rs, tw, pw, m);
    NotSeenIsMissing(t, p, rs, tw, Dec(pw[m]));
  }

  /** Where nothing is hidden, nothing is spoiled and every mismatch is found, in whatever order the positions
      are listed. */
  lemma NothingHiddenMeansNothingSpoiled(kind: string, t: Json, p: Json, rs: seq<string>, tw: seq<string>,
                                         pw: seq<string>)
    requires Lists(tw, t, p, rs) && IsWalk(pw, p) && PlainAnnotations(p) && KeepsMembersOnly(t, p)
    requires NothingHidden(t, p, rs) && AgreeAll(t, p, rs) && AllProper(rs)
    ensures NothingSpoiled(t, p, rs, tw, pw)
    ensures MismatchAmong(kind, t, p, rs, tw, |tw|) <==> AnyMismatch(kind, t, p)
  {
    hide Enc, Dec, Get, IsWalk, Lists, LeftAlone, ToldBefore, Takes, NothingHidden, PlainAnnotations, KeepsMembersOnly,
      Mismatch, AgreeAll;
    WalkLists(pw, p, t);
    forall k | 0 <= k < |tw| && LeftAlone(t, p, rs, tw, k)
      ensures !Dropped(t, p, Dec(tw[k])) && !Mismatch(kind, t, p, Dec(tw[k]))
    {
      LeftAloneIsNeither(kind, t, p, rs, tw, k);
    }
    forall m | 0 <= m < |pw| && Kept(t, p, Dec(pw[m])) ensures !ToldBefore(t, p, rs, tw, pw, m, pw[m]) {
      KeptIsNotTold(t, p, rs, tw, pw, m);
    }
    forall m | 0 <= m < |pw| && Takes(t, p, rs, tw, pw, m) ensures CopyAgrees(t, p, Dec(pw[m])) {
      TakenIsMissing(t, p, rs, tw, pw, m);
    }
    if AnyMismatch(kind, t, p) {
      var q :| Mismatch(kind, t, p, q);
      MismatchIsThere(kind, t, p, q);
      var k := IndexIn(t, p, rs, tw, q);
      assert !LeftAlone(t, p, rs, tw, k);
    }
  }

  lemma LeftAloneIsNeither(kind: string, t: Json, p: Json, rs: seq<string>, tw: seq<string>, k: nat)
    requires Lists(tw, t, p, rs) && k < |tw| && LeftAlone(t, p, rs, tw, k)
    requires NothingHidden(t, p, rs) && AgreeAll(t, p, rs) && AllProper(rs)
    ensures !Dropped(t, p, Dec(tw[k])) && !Mismatch(kind, t, p, Dec(tw[k]))
  {
    hide Enc, Dec, Get, Lists, PassedBy, NothingHidden, Mismatch, AgreeAll, AnyPrefix;
    NotYetDropped(t, p, rs, tw, k);
    if PassedBy(t, p, rs, tw, k) {
      PassedByIsMissing(t, p, rs, tw, k);
      NeitherWithoutParent(kind, t, p, Dec(tw[k]));
    } else {
      PreservedMeaning(t, p, kind, rs, Dec(tw[k]));
    }
  }

  lemma NeitherWithoutParent(kind: string, t: Json, p: Json, q: Position)
    requires q != [] && (Has(t, q) ==> !Has(p, Parent(q)))
    ensures !Dropped(t, p, q) && !Mismatch(kind, t, p, q)
  {
  }

  lemma MismatchIsThere(kind: string, t: Json, p: Json, q: Position)
    requires Mismatch(kind, t, p, q)
    ensures q != [] && Has(t, q)
  {
  }

  lemma TakenIsMissing(t: Json, p: Json, rs: seq<string>, tw: seq<string>, pw: seq<string>, m: nat)
    requires Walks(t, p, rs, tw, pw) && NothingHidden(t, p, rs) && m < |pw| && Takes(t, p, rs, tw, pw, m)
    ensures CopyAgrees(t, p, Dec(pw[m]))
  {
    hide Enc, Dec, Get, Seen, ToldBefore, NothingHidden, Walks;
    PlatformPath(t, p, rs, tw, pw, m);
    ListsOfWalks(t, p, rs, tw, pw);
    NotSeenIsMissing(t, p, rs, tw, Dec(pw[m]));
  }

  lemma ListsOfWalks(t: Json, p: Json, rs: seq<string>, tw: seq<string>, pw: seq<string>)
    requires Walks(t, p, rs, tw, pw)
    ensures Lists(tw, t, p, rs)
  {
  }

  lemma KeptIsNotTold(t: Json, p: Json, rs: seq<string>, tw: seq<string>, pw: seq<string>, m: nat)
    requires Walks(t, p, rs, tw, pw) && NothingHidden(t, p, rs) && m < |pw| && Kept(t, p, Dec(pw[m]))
    ensures !ToldBefore(t, p, rs, tw, pw, m, pw[m])
  {
    hide Enc, Dec, Seen, Walks, Tells;
    var q := Dec(pw[m]);
    PlatformPath(t, p, rs, tw, pw, m);
    forall i | 0 <= i < m && Tells(t, p, rs, tw, pw, i) ensures !(pw[i] <= pw[m]) {
      ToldIsReported(t, p, rs, tw, pw, i);
      var x := Dec(pw[i]);
      assert !Hides(x, q) && pw[i] != pw[m];
      if Enc(x) <= Enc(q) {
        StrictlyBelow(x, q);
        GetPrefix(t, x, Parent(q));
      }
    }
  }

  /** Order independence of the loops themselves: where nothing is hidden, all path lists give the merged
      document, or all of them stop at an immutable field. */
  lemma AnyOrderGivesTheSame(kind: string, name: string, pKind: string, pName: string, t: Json, p: Json,
                             rs: seq<string>, allowRecreate: bool)
    requires PlainAnnotations(p) && DropsMembersOnly(t, p) && KeepsMembersOnly(t, p)
    requires NothingHidden(t, p, rs) && AgreeAll(t, p, rs) && AllProper(rs)
    ensures forall tw, pw | Lists(tw, t, p, rs) && IsWalk(pw, p) ::
              var r := LoopsOutcome(kind, name, pKind, pName, t, p, rs, tw, pw, allowRecreate);
              if AnyMismatch(kind, t, p) then StopsAtField(allowRecreate, r)
              else r == Success([NewChange(kind, name, Merge(t, p), p)])
  {
    hide IsWalk, Lists, MismatchAmong, DropsMembersOnly, KeepsMembersOnly, TemplateLoop, PlatformLoop, Merge,
      NothingSpoiled, PlainAnnotations, NothingHidden, AnyMismatch, AgreeAll, Final, StopsAtField;
    forall tw, pw | Lists(tw, t, p, rs) && IsWalk(pw, p)
      ensures var r := LoopsOutcome(kind, name, pKind, pName, t, p, rs, tw, pw, allowRecreate);
              if AnyMismatch(kind, t, p) then StopsAtField(allowRecreate, r)
              else r == Success([NewChange(kind, name, Merge(t, p), p)])
    {
      NothingHiddenMeansNothingSpoiled(kind, t, p, rs, tw, pw);
      OutcomeIsMergeExactlyIf(kind, name, pKind, pName, t, p, rs, tw, pw, allowRecreate);
      LoopsEndFinal(kind, name, pKind, pName, t, p, rs, tw, pw, allowRecreate);
    }
  }

  // ---- immutable fields ----

  /** A mismatch that no preserved path is a string prefix of. */
  predicate OpenMismatch(kind: string, t: Json, p: Json, rs: seq<string>, q: Position) {
    Mismatch(kind, t, p, q) && !AnyPrefix(rs, Enc(q))
  }

  lemma FoundUnlessHidden(kind: string, t: Json, p: Json, rs: seq<string>, tw: seq<string>, q: Position)
    requires Lists(tw, t, p, rs) && OpenMismatch(kind, t, p, rs, q) && !HiddenBySome(t, p, rs, q)
    ensures MismatchAmong(kind, t, p, rs, tw, |tw|)
  {
    hide Enc, Dec, AnyPrefix, Mismatch, Added;
    MismatchIsThere(kind, t, p, q);
    var k := IndexIn(t, p, rs, tw, q);
    forall m | 0 <= m < k && Adds(t, p, rs, tw[m]) ensures !(tw[m] <= tw[k]) {
      NotYetDropped(t, p, rs, tw, m);
      OnceOnly(t, p, rs, tw, m);
    }
    assert !LeftAlone(t, p, rs, tw, k);
  }

  /** A mismatch at an immutable field that is neither preserved nor hidden by a position that the template adds stops
      every comparison, in whatever order the positions are listed: it ends in a recreation if that is allowed, and
      in a refusal otherwise, never in an update or in no change. */
  lemma ImmutableFieldsAreSafe(kind: string, name: string, pKind: string, pName: string, t: Json, p: Json,
                               rs: seq<string>, tw: seq<string>, pw: seq<string>, allowRecreate: bool, q: Position)
    requires Lists(tw, t, p, rs) && DropsMembersOnly(t, p)
    requires OpenMismatch(kind, t, p, rs, q) && !HiddenBySome(t, p, rs, q)
    ensures StopsAtField(allowRecreate, LoopsOutcome(kind, name, pKind, pName, t, p, rs, tw, pw, allowRecreate))
  {
    hide OpenMismatch, HiddenBySome, MismatchAmong, TemplateLoop, Lists, DropsMembersOnly;
    FoundUnlessHidden(kind, t, p, rs, tw, q);
    MismatchFoundUnlessLeftAlone(kind, t, p, rs, tw);
  }
}
