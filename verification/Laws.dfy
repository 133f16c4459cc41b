/** What a comparison result means: when a resource is in sync, that the order of the paths does not
    matter, which preserved positions can be set, and that unmanaged annotations do not interfere. */
module Laws {
  import opened Wrappers
  import opened Documents
  import opened Pointers
  import opened Merging
  import opened Preparing
  import opened Platform
  import opened Comparison
  import opened Items
  import opened Changes

  // ---- in sync ----

  /** The platform document d shows no drift from the template document t: they agree wherever both have
      something; what only the template has is an empty string in an object, and what only the platform
      has is an empty collection in an object. */
  ghost predicate InSync(t: Json, d: Json) {
    && (forall q :: Has(t, q) && Has(d, q) ==> LabelAt(t, q) == LabelAt(d, q))
    && (forall q :: OnlyIn(t, d, q) ==> Get(t, q) == Some(Str("")) && HoldsObject(t, Parent(q)))
    && (forall q :: OnlyIn(d, t, q) ==> EmptyCollection(Get(d, q).value) && HoldsObject(t, Parent(q)))
  }

  lemma NothingBelow(a: Json, b: Json, q: Position)
    requires Has(a, q) && !Has(b, q)
    requires forall x :: OnlyIn(a, b, x) ==> forall y :: x < y ==> !Has(a, y)
    ensures OnlyIn(a, b, q)
  {
    FirstMissing(a, b, q);
    var n :| 0 < n <= |q| && OnlyIn(a, b, q[..n]);
    PrefixCases(q[..n], q);
  }

  /** Below a position that only one of the two documents in sync has, there is nothing. */
  lemma InSyncTops(t: Json, d: Json, q: Position)
    requires InSync(t, d)
    ensures Has(t, q) && !Has(d, q) ==> OnlyIn(t, d, q)
    ensures Has(d, q) && !Has(t, q) ==> OnlyIn(d, t, q)
  {
    forall x, y | OnlyIn(t, d, x) && x < y ensures !Has(t, y) { BelowString(t, x, y); }
    forall x, y | OnlyIn(d, t, x) && x < y ensures !Has(d, y) { BelowEmpty(d, x, y); }
    if Has(t, q) && !Has(d, q) { NothingBelow(t, d, q); }
    if Has(d, q) && !Has(t, q) { NothingBelow(d, t, q); }
  }

  /** No drift is found exactly when the documents are in sync. */
  lemma {:induction false} InSyncIffMergeUnchanged(t: Json, d: Json)
    ensures InSync(t, d) <==> DropsMembersOnly(t, d) && KeepsMembersOnly(t, d) && Merge(t, d) == d
  {
    hide InSync, DropsMembersOnly, KeepsMembersOnly, Merge;
    if InSync(t, d) { InSyncMerges(t, d); }
    if DropsMembersOnly(t, d) && KeepsMembersOnly(t, d) && Merge(t, d) == d { UnchangedIsInSync(t, d); }
  }

  lemma InSyncMerges(t: Json, d: Json)
    requires InSync(t, d)
    ensures DropsMembersOnly(t, d) && KeepsMembersOnly(t, d) && Merge(t, d) == d
  {
    hide Get, Merge;
    forall q ensures LabelAt(Merge(t, d), q) == LabelAt(d, q) {
      MergeLabels(t, d, q);
      InSyncTops(t, d, q);
    }
    SameLabels(Merge(t, d), d);
  }

  lemma UnchangedIsInSync(t: Json, d: Json)
    requires DropsMembersOnly(t, d) && KeepsMembersOnly(t, d) && Merge(t, d) == d
    ensures InSync(t, d)
  {
    hide Get, Merge;
    forall q | Has(t, q) && Has(d, q) ensures LabelAt(t, q) == LabelAt(d, q) { MergeLabels(t, d, q); }
    forall q | OnlyIn(t, d, q) ensures Get(t, q) == Some(Str("")) && HoldsObject(t, Parent(q)) { MergeLabels(t, d, q); }
    forall q | OnlyIn(d, t, q)
      ensures EmptyCollection(Get(d, q).value) && HoldsObject(t, Parent(q))
    {
      MergeLabels(t, d, q);
    }
  }

  /** Drift is reported exactly when the documents are not in sync, or an immutable field is at stake. */
  lemma NoopIffInSync(kind: string, name: string, t: Json, p: Json, allowRecreate: bool, r: Outcome)
    requires Correct(kind, name, t, p, allowRecreate, r) && DropsMembersOnly(t, p)
    ensures (r.Success? && |r.value| == 1 && r.value[0].action == Noop) <==> InSync(t, p) && !AnyMismatch(kind, t, p)
  {
    InSyncIffMergeUnchanged(t, p);
  }

  /** Two comparisons of the same documents, whatever the order of their path lists: when one ends with an
      update or no change, so does the other, with the same states; otherwise both fail or recreate. */
  lemma CorrectResultsAgree(kind: string, name: string, t: Json, p: Json, allowRecreate: bool, r: Outcome, r': Outcome)
    requires Correct(kind, name, t, p, allowRecreate, r) && Correct(kind, name, t, p, allowRecreate, r')
    requires DropsMembersOnly(t, p)
    ensures r.Success? && |r.value| == 1 ==> r' == r
    ensures r.Success? <==> r'.Success?
    ensures r.Success? ==> |r.value| == |r'.value| && r.value[0] == r'.value[0]
    ensures r.Failure? ==>
              (r.error.Immutable? <==> r'.error.Immutable?) && (r.error.PointerFailed? <==> r'.error.PointerFailed?)
  {
  }

  // ---- preserved paths ----

  lemma {:induction false} MergeAt(t: Json, p: Json, q: Position)
    requires Has(t, q) && Has(p, q)
    ensures Get(Merge(t, p), q) == Some(Merge(Get(t, q).value, Get(p, q).value))
    decreases |q|
  {
    if q != [] {
      ChildOfMerge(t, p, q[0]);
      MergeAt(Child(t, q[0]), Child(p, q[0]), q[1..]);
    }
  }

  /** Setting r in t succeeds. */
  predicate Settable(t: Json, r: Position) {
    r != [] && Has(t, Parent(r)) && (HoldsObject(t, Parent(r)) || Has(t, r))
  }

  lemma PreserveSettable(t: Json, p: Json, r: Position)
    requires r != [] && Has(p, r)
    ensures Settable(t, r) ==> Has(Preserve(t, p, r), r)
    ensures !Settable(t, r) ==> Preserve(t, p, r) == t
  {
    SetEffect(t, r, Get(p, r).value);
    if Settable(t, r) { GetAfterSet(t, r, Get(p, r).value); }
  }

  /** A step for r' keeps r settable, and unsettable unless it brings r along. */
  lemma SettableKept(t: Json, p: Json, r: Position, r': Position)
    requires r != [] && r' != [] && Has(p, r) && !RemovesElement(t, p, r')
    ensures Has(t, r) ==> Has(Preserve(t, p, r'), r)
    ensures Settable(t, r) ==> Settable(Preserve(t, p, r'), r)
    ensures !Settable(t, r) && !Has(Preserve(t, p, r'), r) ==> !Settable(Preserve(t, p, r'), r)
  {
    hide Get, Set, Preserve;
    var t' := Preserve(t, p, r');
    PreserveEffect(t, p, r');
    GetLast(t', r);
    GetLast(t, r);
    if r' <= r {
      GetPrefix(p, r', r);
      PreserveSettable(t, p, r');
      if Settable(t, r') {
        SameThere(t', p, r', r);
      }
    } else {
      PrefixCases(r', r);
      assert !(r' <= Parent(r)) by { assert Parent(r) <= r; }
      assert LabelAt(t', r) == LabelAt(t, r) && LabelAt(t', Parent(r)) == LabelAt(t, Parent(r));
    }
  }

  lemma SameThere(t: Json, p: Json, r: Position, q: Position)
    requires r <= q && Has(p, q) && Has(t, r) && Agree(t, p, r)
    ensures Has(t, q)
  {
    assert q == r + q[|r|..];
    GetConcat(t, r, q[|r|..]);
    GetConcat(p, r, q[|r|..]);
  }

  /** The preserved positions the platform has: those that could be set in the template are there in the
      end, those that could not be set are not and still cannot be set. */
  lemma {:induction false} PreservedIsSet(t: Json, p: Json, rs: seq<string>, r: Position)
    requires Preservable(t, p, rs) && r != [] && Has(p, r)
    ensures Has(t, r) ==> Has(PreserveAll(t, p, rs), r)
    ensures Settable(t, r) ==> Settable(PreserveAll(t, p, rs), r)
    ensures (exists i :: 0 <= i < |rs| && Dec(rs[i]) == r) ==>
              (Settable(t, r) ==> Has(PreserveAll(t, p, rs), r)) &&
              (Has(PreserveAll(t, p, rs), r) || !Settable(PreserveAll(t, p, rs), r))
  {
    if rs != [] {
      var init, last := rs[..|rs| - 1], rs[|rs| - 1];
      assert rs == init + [last];
      var t1 := PreserveAll(t, p, init);
      PreservedIsSet(t, p, init, r);
      PreserveAllEffect(t, p, init);
      PreserveAllStep(t, t1, p, init, last);
      SettableKept(t1, p, r, Dec(last));
      if Dec(last) == r { PreserveSettable(t1, p, r); }
      if (exists i :: 0 <= i < |rs| && Dec(rs[i]) == r) && Dec(last) != r {
        var i :| 0 <= i < |rs| && Dec(rs[i]) == r;
        assert Dec(init[i]) == r;
      }
    }
  }

  /** Some preserved path at or above r could be set in the template when preserving began. */
  ghost predicate InReach(t: Json, rs: seq<string>, r: Position) {
    exists i :: 0 <= i < |rs| && Dec(rs[i]) <= r && Settable(t, Dec(rs[i]))
  }

  /** A preserved position that the platform has is there after preserving exactly if it was in reach. */
  lemma PreservedExactlyIf(t: Json, p: Json, rs: seq<string>, r: Position)
    requires Preservable(t, p, rs) && Has(p, r) && exists i :: 0 <= i < |rs| && Dec(rs[i]) == r
    ensures Has(PreserveAll(t, p, rs), r) <==> InReach(t, rs, r)
  {
    hide Get, Dec, Enc, PreserveAll, Settable, RemovesElement;
    var k :| 0 <= k < |rs| && Dec(rs[k]) == r;
    if InReach(t, rs, r) {
      var i :| 0 <= i < |rs| && Dec(rs[i]) <= r && Settable(t, Dec(rs[i]));
      assert ProperPointer(rs[i]);
      GetPrefix(p, Dec(rs[i]), r);
      PreservedIsSet(t, p, rs, Dec(rs[i]));
      PreserveAllEffect(t, p, rs);
      assert Agree(PreserveAll(t, p, rs), p, Dec(rs[i]));
      SameThere(PreserveAll(t, p, rs), p, Dec(rs[i]), r);
    } else {
      StaysOutOfReach(t, p, rs, rs, r);
      assert !Settable(PreserveAll(t, p, rs), Dec(rs[k]));
      assert ProperPointer(rs[k]);
      ThereIsSettable(PreserveAll(t, p, rs), r);
    }
  }

  lemma ThereIsSettable(t: Json, r: Position)
    requires r != []
    ensures Has(t, r) ==> Settable(t, r)
  {
    GetLast(t, r);
  }

  lemma {:induction false} StaysOutOfReach(t: Json, p: Json, rs: seq<string>, all: seq<string>, r: Position)
    requires Preservable(t, p, rs) && Has(p, r) && !InReach(t, all, r) && forall k :: 0 <= k < |rs| ==> rs[k] in all
    requires forall k :: 0 <= k < |all| ==> Dec(all[k]) != []
    ensures !InReach(PreserveAll(t, p, rs), all, r)
  {
    hide Get, Dec, Enc, Settable, RemovesElement, Preserve, InReach;
    if rs != [] {
      var init, last := rs[..|rs| - 1], rs[|rs| - 1];
      assert rs == init + [last] && ProperPointer(last);
      StaysOutOfReach(t, p, init, all, r);
      PreserveAllEffect(t, p, init);
      PreserveAllStep(t, PreserveAll(t, p, init), p, init, last);
      OutOfReachStep(PreserveAll(t, p, init), p, all, last, r);
    }
  }

  lemma OutOfReachStep(t: Json, p: Json, all: seq<string>, last: string, r: Position)
    requires Has(p, r) && !InReach(t, all, r) && last in all && !RemovesElement(t, p, Dec(last))
    requires forall k :: 0 <= k < |all| ==> Dec(all[k]) != []
    ensures !InReach(Preserve(t, p, Dec(last)), all, r)
  {
    hide Get, Dec, Enc, RemovesElement, Preserve;
    var at := Dec(last);
    PreserveEffect(t, p, at);
    if at <= r {
      var k :| 0 <= k < |all| && all[k] == last;
      GetPrefix(p, at, r);
      PreserveSettable(t, p, at);
    } else {
      forall i | 0 <= i < |all| && Dec(all[i]) <= r
        ensures Settable(Preserve(t, p, at), Dec(all[i])) <==> Settable(t, Dec(all[i]))
      {
        SettableElsewhere(t, Preserve(t, p, at), at, Dec(all[i]), r);
      }
    }
  }

  lemma SettableElsewhere(t: Json, t': Json, at: Position, q: Position, r: Position)
    requires q != [] && q <= r && !(at <= r) && forall x :: !(at <= x) ==> LabelAt(t', x) == LabelAt(t, x)
    ensures Settable(t', q) <==> Settable(t, q)
  {
    assert Parent(q) <= q;
    assert !(at <= q) && !(at <= Parent(q));
    assert LabelAt(t', q) == LabelAt(t, q) && LabelAt(t', Parent(q)) == LabelAt(t, Parent(q));
  }

  // ---- unmanaged annotations ----

  /** p and p' are the same platform resource but for annotations that neither the template nor the last
      applied configuration has; both have an annotations object, or neither has. */
  ghost predicate DifferInUnmanaged(t: Snapshot, p: Snapshot, p': Snapshot) {
    && p.kind == p'.kind && p.name == p'.name
    && p.lastApplied == p'.lastApplied && p.lastAppliedAnnotations == p'.lastAppliedAnnotations
    && p.annotations == AnnotationsOf(p.config).Keys && p'.annotations == AnnotationsOf(p'.config).Keys
    && forall q :: LabelAt(p.config, q) == LabelAt(p'.config, q) ||
                   (ANNOTATIONS < q && q[2] !in t.annotations && q[2] !in p.lastAppliedAnnotations)
  }

  lemma UnmanagedLabels(t: Snapshot, p: Snapshot, q: Position)
    requires PlainAnnotations(p.config) && PlainApiVersion(p.lastApplied)
    requires p.annotations == AnnotationsOf(p.config).Keys
    ensures LabelAt(PlatformDocument(t, p), q) ==
            if ANNOTATIONS < q && q[2] !in t.annotations && q[2] !in p.lastAppliedAnnotations then None
            else LabelAt(FixApiVersion(p.config, p.lastApplied), q)
  {
    hide Get, FixApiVersion, WithoutAnnotations;
    var unmanaged := Unmanaged(p.annotations, t.annotations, p.lastAppliedAnnotations);
    var fixed := FixApiVersion(p.config, p.lastApplied);
    PreparedEffect(p.config, unmanaged, p.lastApplied);
    SameAnnotations(p.config, p.lastApplied);
    WithoutAnnotationsEffect(fixed, unmanaged);
    if ANNOTATIONS < q && q[2] !in p.annotations && Has(fixed, q) { AnnotationKey(fixed, q); }
  }

  lemma AnnotationKey(j: Json, q: Position)
    requires ANNOTATIONS < q && Has(j, q) && PlainAnnotations(j)
    ensures q[2] in AnnotationsOf(j)
  {
    assert AnnotationAt(q[2]) <= q;
    GetPrefix(j, AnnotationAt(q[2]), q);
    AnnotationSteps(j, q[2]);
  }

  /** Annotations that nobody manages do not interfere: the comparison sees the same two documents, so by
      CorrectResultsAgree it has the same result. */
  lemma UnmanagedDoNotInterfere(t: Snapshot, p: Snapshot, p': Snapshot, rs: seq<string>)
    requires DifferInUnmanaged(t, p, p')
    requires PlainAnnotations(p.config) && PlainAnnotations(p'.config) && PlainApiVersion(p.lastApplied)
    requires KeepAway(rs)
    ensures PlatformDocument(t, p') == PlatformDocument(t, p)
    ensures TemplateDocument(t, p', rs) == TemplateDocument(t, p, rs)
  {
    hide Get, Enc, Dec, PreserveAll, Prepared, FixApiVersion, PlatformDocument;
    FixApiVersionAlike(t, p, p');
    forall q ensures LabelAt(PlatformDocument(t, p'), q) == LabelAt(PlatformDocument(t, p), q) {
      UnmanagedLabels(t, p, q);
      UnmanagedLabels(t, p', q);
    }
    SameLabels(PlatformDocument(t, p'), PlatformDocument(t, p));
    forall i | 0 <= i < |rs| ensures Get(p'.config, Dec(rs[i])) == Get(p.config, Dec(rs[i])) {
      SameAtPreserved(t, p, p', Dec(rs[i]));
    }
    PreserveAlike(t.config, p.config, p'.config, rs);
  }

  /** Hence the result does not depend on them: one that is an update or no change is the same, with the same
      states; otherwise both fail or recreate alike. */
  lemma UnmanagedDoNotChangeTheResult(t: Snapshot, p: Snapshot, p': Snapshot, rs: seq<string>, name: string,
                                      allowRecreate: bool, r: Outcome, r': Outcome)
    requires DifferInUnmanaged(t, p, p') && PlainAnnotations(p'.config) && WellBehaved(t, p, rs)
    requires Correct(t.kind, name, TemplateDocument(t, p, rs), PlatformDocument(t, p), allowRecreate, r)
    requires Correct(t.kind, name, TemplateDocument(t, p', rs), PlatformDocument(t, p'), allowRecreate, r')
    ensures WellBehaved(t, p', rs)
    ensures r.Success? && |r.value| == 1 ==> r' == r
    ensures (r.Success? <==> r'.Success?) && (r.Success? ==> |r.value| == |r'.value| && r.value[0] == r'.value[0])
  {
    hide Get, Enc, Dec, TemplateDocument, PlatformDocument, NothingHidden, DropsMembersOnly, Correct;
    UnmanagedDoNotInterfere(t, p, p', rs);
    forall i | 0 <= i < |rs| ensures ProperPointer(rs[i]) && !RemovesElement(t.config, p'.config, Dec(rs[i])) {
      assert ProperPointer(rs[i]) && !RemovesElement(t.config, p.config, Dec(rs[i]));
      SameAtPreserved(t, p, p', Dec(rs[i]));
    }
    CorrectResultsAgree(t.kind, name, TemplateDocument(t, p, rs), PlatformDocument(t, p), allowRecreate, r, r');
  }

  lemma SameAtPreserved(t: Snapshot, p: Snapshot, p': Snapshot, r: Position)
    requires DifferInUnmanaged(t, p, p') && Unrelated(r, ANNOTATIONS)
    ensures Get(p'.config, r) == Get(p.config, r)
  {
    hide Get;
    forall s ensures LabelAt(p'.config, r + s) == LabelAt(p.config, r + s) {
      if ANNOTATIONS <= r + s { PrefixesOfOne(r, ANNOTATIONS, r + s); }
    }
    SameBelow(p'.config, p.config, r);
  }

  lemma FixApiVersionAlike(t: Snapshot, p: Snapshot, p': Snapshot)
    requires DifferInUnmanaged(t, p, p') && PlainApiVersion(p.lastApplied)
    ensures forall q :: LabelAt(FixApiVersion(p.config, p.lastApplied), q) ==
                        LabelAt(FixApiVersion(p'.config, p.lastApplied), q) ||
                        (ANNOTATIONS < q && q[2] !in t.annotations && q[2] !in p.lastAppliedAnnotations)
  {
    hide Get, Set;
    forall s ensures LabelAt(p'.config, API_VERSION + s) == LabelAt(p.config, API_VERSION + s) {
      assert (API_VERSION + s)[0] != ANNOTATIONS[0];
    }
    SameBelow(p'.config, p.config, API_VERSION);
    var applied := Get(p.lastApplied, API_VERSION);
    if applied.Some? {
      SetEffect(p.config, API_VERSION, applied.value);
      SetEffect(p'.config, API_VERSION, applied.value);
      assert Parent(API_VERSION) == [];
      assert LabelAt(p.config, []) == LabelAt(p'.config, []);
      RootSettable(p.config, p'.config, applied.value);
    }
  }

  lemma {:induction false} RootSettable(a: Json, b: Json, v: Json)
    requires LabelAt(a, []) == LabelAt(b, []) && Get(a, API_VERSION) == Get(b, API_VERSION)
    ensures Set(a, API_VERSION, v).Some? <==> Set(b, API_VERSION, v).Some?
  {
    SetEffect(a, API_VERSION, v);
    SetEffect(b, API_VERSION, v);
    assert Parent(API_VERSION) == [];
  }

  lemma {:induction false} PreserveAlike(t: Json, p: Json, p': Json, rs: seq<string>)
    requires forall i :: 0 <= i < |rs| ==> Get(p', Dec(rs[i])) == Get(p, Dec(rs[i]))
    ensures PreserveAll(t, p', rs) == PreserveAll(t, p, rs)
  {
    if rs != [] { PreserveAlike(t, p, p', rs[..|rs| - 1]); }
  }
}
