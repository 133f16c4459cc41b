/** Applying a change to an idealised server and comparing again: nothing is left to do. */
module Convergence {
  import opened Wrappers
  import opened Documents
  import opened Pointers
  import opened Merging
  import opened Preparing
  import opened Platform
  import opened Comparison
  import opened Items
  import opened Changes
  import opened Laws

  const METADATA: Position := ["metadata"]

  /** In sync, and what only the template has is not at an immutable field. */
  ghost predicate Synced(kind: string, t: Json, d: Json) {
    InSync(t, d) && forall q :: OnlyIn(t, d, q) ==> Enc(q) !in ImmutableFields(kind)
  }

  /** A comparison of documents in sync finds nothing to do. */
  lemma SyncedMeansNoop(kind: string, name: string, t: Json, d: Json, allowRecreate: bool, r: Outcome)
    requires Synced(kind, t, d) && Correct(kind, name, t, d, allowRecreate, r)
    ensures r == Success([Change(Noop, kind, name, Yaml(d), Yaml(d))])
  {
    InSyncIffMergeUnchanged(t, d);
    forall q ensures !Mismatch(kind, t, d, q) {
      if q != [] && Has(t, q) && Has(d, q) && !IsCollection(Get(t, q).value) { SameScalar(d, t, q); }
    }
  }

  lemma SyncedHidesNothing(kind: string, t: Json, d: Json, rs: seq<string>)
    requires Synced(kind, t, d)
    requires forall i, y :: 0 <= i < |rs| && y != [] && Has(t, y) ==> !Hides(Dec(rs[i]), y)
    ensures NothingHidden(t, d, rs)
    ensures DropsMembersOnly(t, d)
  {
    forall x ensures !Added(t, d, x) {}
    forall x ensures !Reported(t, d, x) { InSyncTops(t, d, x); }
  }

  // ---- desired states are in sync ----

  lemma {:induction false} MergeIsSynced(kind: string, t: Json, p: Json)
    requires DropsMembersOnly(t, p) && KeepsMembersOnly(t, p) && !AnyMismatch(kind, t, p)
    ensures Synced(kind, t, Merge(t, p))
  {
    hide Get, Enc, Merge, ImmutableFields;
    var d := Merge(t, p);
    forall q { MergeLabels(t, p, q); }
    forall q | OnlyIn(t, d, q) ensures Dropped(t, p, q) && Enc(q) !in ImmutableFields(kind) {
      assert !Mismatch(kind, t, p, q);
    }
    forall q | OnlyIn(d, t, q) ensures EmptyCollection(Get(d, q).value) && HoldsObject(t, Parent(q)) {
      assert Kept(t, p, q);
      KeptStaysEmpty(t, p, d, q);
    }
  }

  lemma {:induction false} KeptStaysEmpty(t: Json, p: Json, d: Json, q: Position)
    requires Kept(t, p, q) && LabelAt(d, q) == LabelAt(p, q)
    requires forall x :: LabelAt(d, x) == LabelAt(t, x) || LabelAt(d, x) == LabelAt(p, x) || !Has(d, x)
    ensures EmptyCollection(Get(d, q).value)
  {
    var v := Get(d, q).value;
    if v.Obj? {
      forall k ensures k !in v.fields {
        assert (q + [k])[..|q|] == q;
        GetConcat(d, q, [k]);
        GetChild(v, k);
        BelowEmpty(p, q, q + [k]);
        BelowMissing(t, q, q + [k]);
        assert LabelAt(d, q + [k]) == None;
      }
      assert v.fields == map[];
    }
  }

  lemma PartlyEditedIsSynced(kind: string, t: Json, p: Json, d: Json)
    requires PartlyEdited(kind, t, p, d)
    ensures Synced(kind, t, d)
  {
    hide Get, Enc, ImmutableFields, Dropped, Mismatch;
    forall q | OnlyIn(t, d, q)
      ensures Get(t, q) == Some(Str("")) && HoldsObject(t, Parent(q)) && Enc(q) !in ImmutableFields(kind)
    {
      DroppedFromEdited(kind, t, p, d, q);
    }
    forall q | Has(d, q) ensures Has(t, q) && LabelAt(d, q) == LabelAt(t, q) { StillThere(kind, t, p, d, q); }
  }

  lemma DroppedFromEdited(kind: string, t: Json, p: Json, d: Json, q: Position)
    requires PartlyEdited(kind, t, p, d) && OnlyIn(t, d, q)
    ensures Get(t, q) == Some(Str("")) && HoldsObject(t, Parent(q)) && Enc(q) !in ImmutableFields(kind)
  {
    hide Get, Enc, ImmutableFields;
    assert LabelAt(d, q) != LabelAt(t, q);
    assert !Mismatch(kind, t, p, q);
  }

  lemma StillThere(kind: string, t: Json, p: Json, d: Json, q: Position)
    requires PartlyEdited(kind, t, p, d) && Has(d, q)
    ensures Has(t, q) && LabelAt(d, q) == LabelAt(t, q)
  {
    hide Get, Dropped, Mismatch;
    assert LabelAt(d, q) == LabelAt(t, q);
  }

  // ---- what the server makes of a desired state ----

  /** The document with more annotations, and with an annotations object in any case. */
  function Annotated(d: Json, extras: map<string, Json>): Json {
    var edited := Set(d, ANNOTATIONS, Obj(AnnotationsOf(d) + extras));
    if edited.Some? then edited.value else d
  }

  lemma AnnotatedEffect(d: Json, extras: map<string, Json>)
    requires PlainAnnotations(d) && HoldsObject(d, METADATA)
    ensures Get(Annotated(d, extras), ANNOTATIONS) == Some(Obj(AnnotationsOf(d) + extras))
    ensures forall q :: !(ANNOTATIONS <= q) ==> LabelAt(Annotated(d, extras), q) == LabelAt(d, q)
    ensures forall q :: !InAnnotations(q, extras.Keys) && q != ANNOTATIONS ==>
                          LabelAt(Annotated(d, extras), q) == LabelAt(d, q)
  {
    var v := Obj(AnnotationsOf(d) + extras);
    assert Parent(ANNOTATIONS) == METADATA;
    SetEffect(d, ANNOTATIONS, v);
    GetAfterSet(d, ANNOTATIONS, v);
    forall q | !InAnnotations(q, extras.Keys) && q != ANNOTATIONS
      ensures LabelAt(Annotated(d, extras), q) == LabelAt(d, q)
    {
      PrefixCases(ANNOTATIONS, q);
      if ANNOTATIONS < q {
        var rest := q[2..];
        assert q == ANNOTATIONS + rest && rest[0] == q[2];
        GetConcat(d, ANNOTATIONS, rest);
        LabelStep(v, rest);
        LabelStep(Obj(AnnotationsOf(d)), rest);
      }
    }
  }

  /** Giving a document an empty annotations object keeps it in sync. */
  lemma {:induction false} AnnotatedIsSynced(kind: string, t: Json, d: Json)
    requires Synced(kind, t, d) && PlainAnnotations(d) && HoldsObject(d, METADATA) && HoldsObject(t, METADATA)
    requires Has(t, ANNOTATIONS) ==> Get(t, ANNOTATIONS).value.Obj?
    ensures Synced(kind, t, Annotated(d, map[]))
  {
    hide Get, Enc, ImmutableFields, Annotated;
    var none: map<string, Json> := map[];
    var d' := Annotated(d, none);
    AnnotatedEffect(d, none);
    assert AnnotationsOf(d) + none == AnnotationsOf(d);
    AnnotationsThere(d);
    forall q | q != ANNOTATIONS ensures LabelAt(d', q) == LabelAt(d, q) {
      assert !InAnnotations(q, none.Keys);
    }
    if Has(d, ANNOTATIONS) {
      SameLabels(d', d);
    } else {
      InSyncTops(t, d, ANNOTATIONS);
      AddedAnnotationsAreSynced(kind, t, d, d');
    }
  }

  lemma {:induction false} AddedAnnotationsAreSynced(kind: string, t: Json, d: Json, d': Json)
    requires Synced(kind, t, d) && HoldsObject(t, METADATA)
    requires !Has(d, ANNOTATIONS) && !Has(t, ANNOTATIONS)
    requires Get(d', ANNOTATIONS) == Some(Obj(map[]))
    requires forall q :: q != ANNOTATIONS ==> LabelAt(d', q) == LabelAt(d, q)
    ensures Synced(kind, t, d')
  {
    CommonLabels(t, d, d');
    forall q | OnlyIn(t, d', q) ensures OnlyIn(t, d, q) { StillOnlyInTemplate(t, d, d', q); }
    forall q | OnlyIn(d', t, q) ensures EmptyCollection(Get(d', q).value) && HoldsObject(t, Parent(q)) {
      OnlyInAnnotated(t, d, d', q);
    }
  }

  lemma CommonLabels(t: Json, d: Json, d': Json)
    requires InSync(t, d) && !Has(t, ANNOTATIONS)
    requires forall q :: q != ANNOTATIONS ==> LabelAt(d', q) == LabelAt(d, q)
    ensures forall q :: Has(t, q) && Has(d', q) ==> LabelAt(t, q) == LabelAt(d', q)
  {
    hide Get;
    forall q | Has(t, q) && Has(d', q) ensures LabelAt(t, q) == LabelAt(d', q) {
      assert LabelAt(d', q) == LabelAt(d, q);
    }
  }

  lemma StillOnlyInTemplate(t: Json, d: Json, d': Json, q: Position)
    requires !Has(t, ANNOTATIONS) && OnlyIn(t, d', q)
    requires forall q :: q != ANNOTATIONS ==> LabelAt(d', q) == LabelAt(d, q)
    ensures OnlyIn(t, d, q)
  {
    hide Get;
    assert Parent(q) <= q;
    if Parent(q) == ANNOTATIONS { GetPrefixOrNot(t, ANNOTATIONS, q); }
    assert LabelAt(d', q) == LabelAt(d, q) && LabelAt(d', Parent(q)) == LabelAt(d, Parent(q));
  }

  lemma {:induction false} OnlyInAnnotated(t: Json, d: Json, d': Json, q: Position)
    requires InSync(t, d) && HoldsObject(t, METADATA)
    requires Get(d', ANNOTATIONS) == Some(Obj(map[]))
    requires forall q :: q != ANNOTATIONS ==> LabelAt(d', q) == LabelAt(d, q)
    requires OnlyIn(d', t, q)
    ensures EmptyCollection(Get(d', q).value) && HoldsObject(t, Parent(q))
  {
    hide Get;
    if q == ANNOTATIONS {
      assert Parent(ANNOTATIONS) == METADATA;
    } else {
      assert LabelAt(d', q) == LabelAt(d, q);
      assert OnlyIn(d, t, q);
      forall x ensures LabelAt(d', q + x) == LabelAt(d, q + x) {
        if q + x == ANNOTATIONS { AbovesOfAnnotations(t, q); }
      }
      SameBelow(d', d, q);
    }
  }

  lemma {:induction false} AnnotationsThere(d: Json)
    requires PlainAnnotations(d)
    ensures Has(d, ANNOTATIONS) ==> Get(d, ANNOTATIONS) == Some(Obj(AnnotationsOf(d)))
    ensures !Has(d, ANNOTATIONS) ==> AnnotationsOf(d) == map[]
  {
  }

  lemma AbovesOfAnnotations(t: Json, q: Position)
    requires q <= ANNOTATIONS && q != ANNOTATIONS && Has(t, METADATA)
    ensures Has(t, q)
  {
    assert q == [] || q == METADATA;
  }

  /** Scalars under keys that neither the template nor the desired document uses. */
  predicate Foreign(extras: map<string, Json>, t: Snapshot, d: Json) {
    && (forall k :: k in extras ==> !IsCollection(extras[k]))
    && extras.Keys !! t.annotations && extras.Keys !! AnnotationsOf(d).Keys
  }

  /** The resource as it is read back after the desired document d was applied. The server keeps d, records
      it as last applied, and may hold more annotations, the record itself among them. */
  ghost predicate ReadBack(t: Snapshot, d: Json, p: Snapshot) {
    && p.kind == t.kind && p.name == t.name
    && p.lastApplied == d && p.lastAppliedAnnotations == AnnotationsOf(d).Keys
    && p.annotations == AnnotationsOf(p.config).Keys
    && exists extras :: Foreign(extras, t, d) && p.config == Annotated(d, extras)
  }

  /** A document that the server can take: with metadata, and with plain annotations and apiVersion. */
  predicate Storable(d: Json) {
    HoldsObject(d, METADATA) && PlainAnnotations(d) && PlainApiVersion(d)
  }

  lemma SameApiVersion(j: Json, applied: Json)
    requires Get(j, API_VERSION) == Get(applied, API_VERSION)
    ensures FixApiVersion(j, applied) == j
  {
    if Get(j, API_VERSION).Some? {
      PreserveNothing(j, applied, API_VERSION);
    }
  }

  lemma AnnotatedElsewhere(d: Json, extras: map<string, Json>, r: Position)
    requires Storable(d) && Unrelated(r, ANNOTATIONS)
    ensures Get(Annotated(d, extras), r) == Get(d, r)
  {
    hide Get, Annotated;
    AnnotatedEffect(d, extras);
    forall s ensures LabelAt(Annotated(d, extras), r + s) == LabelAt(d, r + s) {
      if ANNOTATIONS <= r + s { PrefixesOfOne(r, ANNOTATIONS, r + s); }
    }
    SameBelow(Annotated(d, extras), d, r);
  }

  /** What the comparison sees of a resource that was read back: the desired document, with an annotations
      object. */
  lemma ReadBackDocument(t: Snapshot, d: Json, p: Snapshot)
    requires ReadBack(t, d, p) && Storable(d)
    ensures PlatformDocument(t, p) == Annotated(d, map[]) && PlainAnnotations(p.config) && p.lastApplied == d
    ensures forall r :: Unrelated(r, ANNOTATIONS) ==> Get(p.config, r) == Get(d, r)
  {
    hide Get, Annotated, FixApiVersion, WithoutAnnotations;
    var extras :| Foreign(extras, t, d) && p.config == Annotated(d, extras);
    var none: map<string, Json> := map[];
    AnnotatedEffect(d, extras);
    AnnotatedEffect(d, none);
    AnnotationsThere(d);
    forall r | Unrelated(r, ANNOTATIONS) ensures Get(p.config, r) == Get(d, r) { AnnotatedElsewhere(d, extras, r); }
    assert Unrelated(API_VERSION, ANNOTATIONS) by { assert API_VERSION[0] != ANNOTATIONS[0]; }
    SameApiVersion(p.config, d);
    assert AnnotationsOf(p.config) == AnnotationsOf(d) + extras by { AnnotationsThere(p.config); }
    var unmanaged := Unmanaged(p.annotations, t.annotations, p.lastAppliedAnnotations);
    assert unmanaged == extras.Keys;
    PlainAfterAdding(d, extras);
    WithoutAnnotationsEffect(p.config, unmanaged);
    forall q ensures LabelAt(WithoutAnnotations(p.config, unmanaged), q) == LabelAt(Annotated(d, none), q) {
      ReadBackLabel(t, d, extras, none, q);
    }
    SameLabels(PlatformDocument(t, p), Annotated(d, none));
  }

  lemma PlainAfterAdding(d: Json, extras: map<string, Json>)
    requires Storable(d) && forall k :: k in extras ==> !IsCollection(extras[k])
    ensures PlainAnnotations(Annotated(d, extras))
  {
    AnnotatedEffect(d, extras);
  }

  lemma ReadBackLabel(t: Snapshot, d: Json, extras: map<string, Json>, none: map<string, Json>, q: Position)
    requires Storable(d) && Foreign(extras, t, d) && none == map[]
    ensures LabelAt(Annotated(d, none), q) ==
            if InAnnotations(q, extras.Keys) then None else LabelAt(Annotated(d, extras), q)
  {
    AnnotatedEffect(d, extras);
    AnnotatedEffect(d, none);
    if InAnnotations(q, extras.Keys) {
      assert !InAnnotations(q, none.Keys);
      if Has(d, q) { AnnotationKey(d, q); }
    } else if q != ANNOTATIONS {
      assert !InAnnotations(q, none.Keys);
    }
  }

  // ---- comparing again ----

  /** What a template needs to have: metadata, plain annotations, and a plain apiVersion. */
  predicate ProperTemplate(t: Json) {
    Storable(t) && Has(t, API_VERSION)
  }

  /** d is a desired state which a comparison of t and p may come up with. */
  ghost predicate Desired(t: Snapshot, p: Snapshot, rs: seq<string>, d: Json) {
    var t1, p1 := TemplateDocument(t, p, rs), PlatformDocument(t, p);
    || (DropsMembersOnly(t1, p1) && KeepsMembersOnly(t1, p1) && !AnyMismatch(t.kind, t1, p1) && d == Merge(t1, p1))
    || PartlyEdited(t.kind, t1, p1, d)
  }

  /** At q, d has what t has, or nothing because it was dropped, or what p has because it was kept. */
  predicate FromEither(t: Json, p: Json, d: Json, q: Position) {
    || LabelAt(d, q) == LabelAt(t, q)
    || (Dropped(t, p, q) && LabelAt(d, q) == None)
    || (Kept(t, p, q) && HoldsObject(t, Parent(q)) && LabelAt(d, q) == LabelAt(p, q))
  }

  lemma DesiredLabels(t: Snapshot, p: Snapshot, rs: seq<string>, d: Json, q: Position)
    requires Desired(t, p, rs, d)
    ensures FromEither(TemplateDocument(t, p, rs), PlatformDocument(t, p), d, q)
  {
    hide Get, Merge, TemplateDocument, PlatformDocument;
    var t1, p1 := TemplateDocument(t, p, rs), PlatformDocument(t, p);
    if DropsMembersOnly(t1, p1) && KeepsMembersOnly(t1, p1) && d == Merge(t1, p1) {
      MergeLabels(t1, p1, q);
    }
  }

  lemma DesiredIsSynced(t: Snapshot, p: Snapshot, rs: seq<string>, d: Json)
    requires Desired(t, p, rs, d)
    ensures Synced(t.kind, TemplateDocument(t, p, rs), d)
  {
    var t1, p1 := TemplateDocument(t, p, rs), PlatformDocument(t, p);
    if PartlyEdited(t.kind, t1, p1, d) {
      PartlyEditedIsSynced(t.kind, t1, p1, d);
    } else {
      MergeIsSynced(t.kind, t1, p1);
    }
  }

  /** Preservation leaves alone what is not related to a preserved path. */
  lemma TemplateElsewhere(t: Snapshot, p: Snapshot, rs: seq<string>, q: Position)
    requires Preservable(t.config, p.config, rs)
    requires forall i :: 0 <= i < |rs| ==> Unrelated(Dec(rs[i]), q)
    ensures Get(TemplateDocument(t, p, rs), q) == Get(t.config, q)
  {
    hide Get, Enc, Dec, PreserveAll;
    PreserveAllEffect(t.config, p.config, rs);
    forall s ensures LabelAt(TemplateDocument(t, p, rs), q + s) == LabelAt(t.config, q + s) {
      forall i | 0 <= i < |rs| ensures !(Dec(rs[i]) <= q + s) {
        if Dec(rs[i]) <= q + s { PrefixesOfOne(Dec(rs[i]), q, q + s); }
      }
      assert Unpreserved(q + s, rs);
    }
    SameBelow(TemplateDocument(t, p, rs), t.config, q);
  }

  lemma TemplateMetadata(t: Snapshot, p: Snapshot, rs: seq<string>)
    requires Preservable(t.config, p.config, rs) && KeepAway(rs)
    ensures LabelAt(TemplateDocument(t, p, rs), METADATA) == LabelAt(t.config, METADATA)
    ensures Get(TemplateDocument(t, p, rs), ANNOTATIONS) == Get(t.config, ANNOTATIONS)
    ensures Get(TemplateDocument(t, p, rs), API_VERSION) == Get(t.config, API_VERSION)
  {
    hide Get, Enc, Dec, PreserveAll;
    PreserveAllEffect(t.config, p.config, rs);
    assert METADATA <= ANNOTATIONS;
    forall i | 0 <= i < |rs| ensures !(Dec(rs[i]) <= METADATA) {
      assert Unrelated(Dec(rs[i]), ANNOTATIONS);
    }
    assert Unpreserved(METADATA, rs);
    TemplateElsewhere(t, p, rs, ANNOTATIONS);
    TemplateElsewhere(t, p, rs, API_VERSION);
  }

  lemma DesiredIsStorable(t: Snapshot, p: Snapshot, rs: seq<string>, d: Json)
    requires WellBehaved(t, p, rs) && ProperTemplate(t.config) && Desired(t, p, rs, d)
    ensures Storable(d)
  {
    hide Get, Enc, Dec, TemplateDocument, PlatformDocument, NothingHidden, FromEither;
    var t1, p1 := TemplateDocument(t, p, rs), PlatformDocument(t, p);
    TemplateMetadata(t, p, rs);
    PreparedIsPlain(t, p);
    forall q ensures FromEither(t1, p1, d, q) { DesiredLabels(t, p, rs, d, q); }
    StorableByLabels(t1, p1, d);
  }

  lemma StorableByLabels(t: Json, p: Json, d: Json)
    requires Storable(t) && Has(t, API_VERSION) && PlainAnnotations(p)
    requires forall q :: FromEither(t, p, d, q)
    ensures Storable(d)
  {
    hide Get;
    assert FromEither(t, p, d, METADATA) && FromEither(t, p, d, ANNOTATIONS) && FromEither(t, p, d, API_VERSION);
    TopLabels(t, p, d);
    if Has(d, ANNOTATIONS) {
      forall k | k in AnnotationsOf(d) ensures !IsCollection(AnnotationsOf(d)[k]) {
        assert FromEither(t, p, d, AnnotationAt(k));
        AnnotationStaysPlain(t, p, d, k);
      }
    }
  }

  lemma TopLabels(t: Json, p: Json, d: Json)
    requires Storable(t) && Has(t, API_VERSION) && PlainAnnotations(p)
    requires FromEither(t, p, d, METADATA) && FromEither(t, p, d, ANNOTATIONS) && FromEither(t, p, d, API_VERSION)
    ensures HoldsObject(d, METADATA) && PlainApiVersion(d)
    ensures Has(d, ANNOTATIONS) ==> Get(d, ANNOTATIONS) == Some(Obj(AnnotationsOf(d)))
  {
  }

  lemma AnnotationStaysPlain(t: Json, p: Json, d: Json, k: string)
    requires PlainAnnotations(t) && PlainAnnotations(p)
    requires FromEither(t, p, d, AnnotationAt(k)) && k in AnnotationsOf(d)
    ensures !IsCollection(AnnotationsOf(d)[k])
  {
    AnnotationSteps(d, k);
    AnnotationSteps(t, k);
    AnnotationSteps(p, k);
  }

  lemma PreparedIsPlain(t: Snapshot, p: Snapshot)
    requires PlainAnnotations(p.config) && PlainApiVersion(p.lastApplied)
    ensures PlainAnnotations(PlatformDocument(t, p))
  {
    PreparedEffect(p.config, Unmanaged(p.annotations, t.annotations, p.lastAppliedAnnotations), p.lastApplied);
  }

  /** At every preserved path a desired state has what the prepared template has there. */
  lemma DesiredAtPreserved(t: Snapshot, p: Snapshot, rs: seq<string>, d: Json, i: nat)
    requires WellBehaved(t, p, rs) && Desired(t, p, rs, d) && i < |rs|
    ensures Get(d, Dec(rs[i])) == Get(TemplateDocument(t, p, rs), Dec(rs[i]))
  {
    hide Get, Enc, Dec, TemplateDocument, PlatformDocument, NothingHidden, FromEither;
    var t1, p1, r := TemplateDocument(t, p, rs), PlatformDocument(t, p), Dec(rs[i]);
    assert ProperPointer(rs[i]);
    AgreeWithPrepared(t, p, rs, i);
    forall q ensures FromEither(t1, p1, d, q) { DesiredLabels(t, p, rs, d, q); }
    if Has(t1, r) {
      forall s ensures LabelAt(d, r + s) == LabelAt(t1, r + s) {
        assert FromEither(t1, p1, d, r + s);
        AgreedStays(t1, p1, d, r, s);
      }
      SameBelow(d, t1, r);
    } else {
      assert FromEither(t1, p1, d, r);
      AbsentStays(t1, p1, d, r);
    }
  }

  lemma AgreeWithPrepared(t: Snapshot, p: Snapshot, rs: seq<string>, i: nat)
    requires WellBehaved(t, p, rs) && i < |rs|
    ensures Agree(TemplateDocument(t, p, rs), PlatformDocument(t, p), Dec(rs[i]))
    ensures Get(PlatformDocument(t, p), Dec(rs[i])) == Get(p.config, Dec(rs[i]))
    ensures Has(p.config, Dec(rs[i])) && !Has(TemplateDocument(t, p, rs), Dec(rs[i])) ==>
              !Settable(TemplateDocument(t, p, rs), Dec(rs[i]))
  {
    hide Get, Enc, Dec, PreserveAll, Prepared, NothingHidden;
    var r := Dec(rs[i]);
    PreserveAllEffect(t.config, p.config, rs);
    PreparedElsewhere(p.config, Unmanaged(p.annotations, t.annotations, p.lastAppliedAnnotations), p.lastApplied, r);
    assert ProperPointer(rs[i]) && Agree(TemplateDocument(t, p, rs), p.config, r);
    if Has(p.config, r) { PreservedIsSet(t.config, p.config, rs, r); }
  }

  lemma AgreedStays(t: Json, p: Json, d: Json, r: Position, s: Position)
    requires Has(t, r) && Get(t, r) == Get(p, r) && FromEither(t, p, d, r + s)
    ensures LabelAt(d, r + s) == LabelAt(t, r + s)
  {
    GetConcat(t, r, s);
    GetConcat(p, r, s);
  }

  lemma AbsentStays(t: Json, p: Json, d: Json, r: Position)
    requires r != [] && !Has(t, r) && FromEither(t, p, d, r) && (Has(p, r) ==> !Settable(t, r))
    ensures Get(d, r) == None
  {
  }

  lemma {:induction false} StaysThere(t: Json, p: Json, rs: seq<string>, k: nat, r: Position)
    requires Preservable(t, p, rs) && k <= |rs| && r != [] && Has(p, r)
    ensures Has(PreserveAll(t, p, rs[..k]), r) ==> Has(PreserveAll(t, p, rs), r)
  {
    if k == |rs| {
      assert rs[..k] == rs;
    } else {
      var init, last := rs[..|rs| - 1], rs[|rs| - 1];
      assert rs == init + [last] && init[..k] == rs[..k];
      StaysThere(t, p, init, k, r);
      PreserveAllEffect(t, p, init);
      PreserveAllStep(t, PreserveAll(t, p, init), p, init, last);
      SettableKept(PreserveAll(t, p, init), p, r, Dec(last));
    }
  }

  /** Preserving from a document that has, at the preserved paths, what preserving from p led to, leads to
      the same template. */
  lemma {:induction false} PreserveAgain(t: Json, p: Json, d: Json, rs: seq<string>, k: nat)
    requires Preservable(t, p, rs) && k <= |rs|
    requires forall i :: 0 <= i < |rs| ==> Get(d, Dec(rs[i])) == Get(PreserveAll(t, p, rs), Dec(rs[i]))
    ensures PreserveAll(t, d, rs[..k]) == PreserveAll(t, p, rs[..k])
  {
    hide Get, Enc, Dec, Preserve, RemovesElement;
    if k > 0 {
      PreserveAgain(t, p, d, rs, k - 1);
      assert rs[..k][..k - 1] == rs[..k - 1] && rs[..k][k - 1] == rs[k - 1];
      assert ProperPointer(rs[k - 1]);
      SamePreserved(t, p, d, rs, k);
      SameStep(PreserveAll(t, p, rs[..k - 1]), p, d, Dec(rs[k - 1]));
    }
  }

  lemma SamePreserved(t: Json, p: Json, d: Json, rs: seq<string>, k: nat)
    requires Preservable(t, p, rs) && 0 < k <= |rs|
    requires Get(d, Dec(rs[k - 1])) == Get(PreserveAll(t, p, rs), Dec(rs[k - 1]))
    ensures var r := Dec(rs[k - 1]);
            Get(d, r) == Get(p, r) || (Get(d, r) == None && !Settable(PreserveAll(t, p, rs[..k - 1]), r))
  {
    hide Get, Enc, Dec, Preserve, PreserveAll;
    var r, t' := Dec(rs[k - 1]), PreserveAll(t, p, rs[..k - 1]);
    PreserveAllEffect(t, p, rs);
    assert ProperPointer(rs[k - 1]) && Agree(PreserveAll(t, p, rs), p, r);
    if Has(p, r) && Settable(t', r) {
      PreserveSettable(t', p, r);
      LastStep(t, p, rs[..k]);
      assert rs[..k][..k - 1] == rs[..k - 1];
      StaysThere(t, p, rs, k, r);
    }
  }

  lemma LastStep(t: Json, p: Json, rs: seq<string>)
    requires rs != []
    ensures PreserveAll(t, p, rs) == Preserve(PreserveAll(t, p, rs[..|rs| - 1]), p, Dec(rs[|rs| - 1]))
  {
  }

  lemma SameStep(t: Json, p: Json, d: Json, r: Position)
    requires r != []
    requires Get(d, r) == Get(p, r) || (Get(d, r) == None && !Settable(t, r))
    ensures Preserve(t, d, r) == Preserve(t, p, r)
  {
    if Get(d, r) != Get(p, r) {
      PreserveSettable(t, p, r);
      DeleteEffect(t, r);
      GetLast(t, r);
    }
  }

  /** The same template, compared with the resource as it is read back after its desired state was applied:
      the prepared template is the same as before, and the comparison finds the two in sync. */
  lemma ComparingAgain(t: Snapshot, p: Snapshot, rs: seq<string>, d: Json, p': Snapshot)
    requires WellBehaved(t, p, rs) && ProperTemplate(t.config) && Desired(t, p, rs, d)
    requires ReadBack(t, d, p')
    ensures WellBehaved(t, p', rs)
    ensures TemplateDocument(t, p', rs) == TemplateDocument(t, p, rs)
    ensures Synced(t.kind, TemplateDocument(t, p', rs), PlatformDocument(t, p'))
  {
    hide Get, Enc, Dec, PreserveAll, Prepared, NothingHidden, Desired, Annotated, PlatformDocument, ReadBack;
    var t1 := TemplateDocument(t, p, rs);
    DesiredIsStorable(t, p, rs, d);
    ReadBackDocument(t, d, p');
    forall i | 0 <= i < |rs| ensures Get(p'.config, Dec(rs[i])) == Get(t1, Dec(rs[i])) {
      DesiredAtPreserved(t, p, rs, d, i);
      assert Unrelated(Dec(rs[i]), ANNOTATIONS);
    }
    PreserveAgain(t.config, p.config, p'.config, rs, |rs|);
    assert rs[..|rs|] == rs;
    TemplateMetadata(t, p, rs);
    DesiredIsSynced(t, p, rs, d);
    AnnotatedIsSynced(t.kind, t1, d);
    StillWellBehaved(t, p, rs, d, p');
  }

  lemma StillWellBehaved(t: Snapshot, p: Snapshot, rs: seq<string>, d: Json, p': Snapshot)
    requires WellBehaved(t, p, rs) && ReadBack(t, d, p') && Storable(d)
    requires PlainAnnotations(p'.config)
    requires TemplateDocument(t, p', rs) == TemplateDocument(t, p, rs)
    requires forall i :: 0 <= i < |rs| ==> Get(p'.config, Dec(rs[i])) == Get(TemplateDocument(t, p, rs), Dec(rs[i]))
    requires Synced(t.kind, TemplateDocument(t, p', rs), PlatformDocument(t, p'))
    ensures WellBehaved(t, p', rs)
  {
    hide Get, Enc, Dec, Prepared, Annotated, PlatformDocument, Synced;
    SyncedHidesNothing(t.kind, TemplateDocument(t, p', rs), PlatformDocument(t, p'), rs);
    forall i | 0 <= i < |rs| ensures ProperPointer(rs[i]) && !RemovesElement(t.config, p'.config, Dec(rs[i])) {
      var r := Dec(rs[i]);
      assert ProperPointer(rs[i]) && !RemovesElement(t.config, p.config, r);
      if Has(p.config, r) { PreservedIsSet(t.config, p.config, rs, r); }
    }
  }

  // ---- each kind of change converges ----

  /** A further comparison of the two finds nothing to do. */
  ghost predicate NothingToDo(t: Snapshot, p: Snapshot, rs: seq<string>) {
    WellBehaved(t, p, rs) && Synced(t.kind, TemplateDocument(t, p, rs), PlatformDocument(t, p))
  }

  lemma NothingToDoMeansNoop(t: Snapshot, p: Snapshot, rs: seq<string>, name: string, allowRecreate: bool, r: Outcome)
    requires NothingToDo(t, p, rs)
    requires Correct(t.kind, name, TemplateDocument(t, p, rs), PlatformDocument(t, p), allowRecreate, r)
    ensures r.Success? && |r.value| == 1 && r.value[0].action == Noop
  {
    SyncedMeansNoop(t.kind, name, TemplateDocument(t, p, rs), PlatformDocument(t, p), allowRecreate, r);
  }

  /** An unchanged resource stays in sync. */
  lemma NoopConverges(t: Snapshot, p: Snapshot, rs: seq<string>, name: string, allowRecreate: bool, r: Outcome)
    requires WellBehaved(t, p, rs)
    requires Correct(t.kind, name, TemplateDocument(t, p, rs), PlatformDocument(t, p), allowRecreate, r)
    requires r.Success? && |r.value| == 1 && r.value[0].action == Noop
    ensures NothingToDo(t, p, rs)
  {
    hide Get, Enc, ImmutableFields;
    var t1, p1 := TemplateDocument(t, p, rs), PlatformDocument(t, p);
    NoopIffInSync(t.kind, name, t1, p1, allowRecreate, r);
    forall q | OnlyIn(t1, p1, q) ensures Enc(q) !in ImmutableFields(t.kind) {
      assert !Mismatch(t.kind, t1, p1, q);
    }
  }

  /** The desired state of an update or recreation, read back, is in sync. */
  lemma ChangeConverges(t: Snapshot, p: Snapshot, rs: seq<string>, name: string, allowRecreate: bool, r: Outcome,
                        d: Json, p': Snapshot)
    requires WellBehaved(t, p, rs) && ProperTemplate(t.config)
    requires Correct(t.kind, name, TemplateDocument(t, p, rs), PlatformDocument(t, p), allowRecreate, r)
    requires r.Success? && |r.value| > 0 && r.value[|r.value| - 1].desired == Yaml(d)
    requires ReadBack(t, d, p')
    ensures NothingToDo(t, p', rs)
  {
    hide Get, Enc, Dec, TemplateDocument, PlatformDocument, WellBehaved, ReadBack, Synced;
    ResultIsDesired(t, p, rs, name, allowRecreate, r, d);
    ComparingAgain(t, p, rs, d, p');
  }

  lemma ResultIsDesired(t: Snapshot, p: Snapshot, rs: seq<string>, name: string, allowRecreate: bool, r: Outcome,
                        d: Json)
    requires WellBehaved(t, p, rs)
    requires Correct(t.kind, name, TemplateDocument(t, p, rs), PlatformDocument(t, p), allowRecreate, r)
    requires r.Success? && |r.value| > 0 && r.value[|r.value| - 1].desired == Yaml(d)
    ensures Desired(t, p, rs, d)
  {
  }

  /** Preserve arguments that a template can be compared with, whatever the platform has. */
  ghost predicate GoodArguments(t: Json, rs: seq<string>) {
    && AllProper(rs) && KeepAway(rs)
    && forall i, y :: 0 <= i < |rs| && y != [] && Has(t, y) ==> !Hides(Dec(rs[i]), y)
  }

  /** A created resource, read back, is in sync. */
  lemma CreationConverges(t: Snapshot, rs: seq<string>, p': Snapshot)
    requires ProperTemplate(t.config) && GoodArguments(t.config, rs)
    requires ReadBack(t, t.config, p')
    ensures NothingToDo(t, p', rs)
  {
    hide Get, Enc, Dec, PreserveAll, Prepared, Annotated, PlatformDocument, ReadBack, Synced;
    var d := t.config;
    ReadBackDocument(t, d, p');
    forall i | 0 <= i < |rs| ensures Get(p'.config, Dec(rs[i])) == Get(d, Dec(rs[i])) {
      assert Unrelated(Dec(rs[i]), ANNOTATIONS);
    }
    PreserveOwn(d, p'.config, rs);
    SelfSynced(t.kind, d);
    AnnotatedIsSynced(t.kind, d, d);
    SyncedHidesNothing(t.kind, d, PlatformDocument(t, p'), rs);
    assert Preservable(d, p'.config, rs);
  }

  lemma SelfSynced(kind: string, t: Json)
    ensures Synced(kind, t, t)
  {
  }

  lemma {:induction false} PreserveOwn(t: Json, p: Json, rs: seq<string>)
    requires forall i :: 0 <= i < |rs| ==> ProperPointer(rs[i]) && Get(p, Dec(rs[i])) == Get(t, Dec(rs[i]))
    ensures PreserveAll(t, p, rs) == t
  {
    if rs != [] {
      PreserveOwn(t, p, rs[..|rs| - 1]);
      assert ProperPointer(rs[|rs| - 1]);
      PreserveNothing(t, p, Dec(rs[|rs| - 1]));
    }
  }
}
