/** What happens to a platform document before it is compared (pkg/openshift/item.go), on values: the
    apiVersion fix and the removal of annotations that nobody manages. */
module Platform {
  import opened Wrappers
  import opened Text
  import opened Documents
  import opened Pointers
  import opened Merging
  import opened Walking
  import opened Preparing

  /** The annotations object of a document, or none. */
  function AnnotationsOf(j: Json): map<string, Json> {
    var a := Get(j, ANNOTATIONS);
    if a.Some? && a.value.Obj? then a.value.fields else map[]
  }

  /** Annotations are an object of scalars, when there are any. */
  predicate PlainAnnotations(j: Json) {
    var a := Get(j, ANNOTATIONS);
    a.Some? ==> a.value.Obj? && forall k :: k in a.value.fields ==> !IsCollection(a.value.fields[k])
  }

  /** An apiVersion that "oc" reports in its old form is replaced by the last applied one. */
  function FixApiVersion(j: Json, lastApplied: Json): Json {
    var applied := Get(lastApplied, API_VERSION);
    if Get(j, API_VERSION) == Some(Str("extensions/v1beta1")) && applied.Some? then
      var fixed := Set(j, API_VERSION, applied.value);
      if fixed.Some? then fixed.value else j
    else j
  }

  function WithoutAnnotations(j: Json, ks: set<string>): Json {
    var a := Get(j, ANNOTATIONS);
    if a.Some? && a.value.Obj? then
      var edited := Set(j, ANNOTATIONS, Obj(a.value.fields - ks));
      if edited.Some? then edited.value else j
    else j
  }

  /** Annotations of the platform that neither the template nor the last applied configuration has. */
  function Unmanaged(annotations: set<string>, wanted: set<string>, applied: set<string>): set<string> {
    annotations - wanted - applied
  }

  /** The platform document as it is compared. */
  function Prepared(config: Json, unmanaged: set<string>, lastApplied: Json): Json {
    WithoutAnnotations(FixApiVersion(config, lastApplied), unmanaged)
  }

  /** The last applied apiVersion, when known, is a plain value. */
  predicate PlainApiVersion(lastApplied: Json) {
    var v := Get(lastApplied, API_VERSION);
    v.Some? ==> !IsCollection(v.value)
  }

  function AnnotationAt(a: string): Position {
    ANNOTATIONS + [a]
  }

  /** q is one of the annotations ks, or below one. */
  predicate InAnnotations(q: Position, ks: set<string>) {
    ANNOTATIONS < q && q[2] in ks
  }

  /** cur is j without the annotations ks. */
  ghost predicate Lacks(cur: Json, j: Json, ks: set<string>) {
    forall q :: LabelAt(cur, q) == if InAnnotations(q, ks) then None else LabelAt(j, q)
  }

  lemma {:induction false} AnnotationSteps(j: Json, a: string)
    ensures Has(j, AnnotationAt(a)) <==> Has(j, ANNOTATIONS) && HasChild(Get(j, ANNOTATIONS).value, a)
    ensures Has(j, AnnotationAt(a)) ==> Get(j, AnnotationAt(a)).value == Child(Get(j, ANNOTATIONS).value, a)
    ensures Parent(AnnotationAt(a)) == ANNOTATIONS
  {
    GetLast(j, AnnotationAt(a));
    assert Parent(AnnotationAt(a)) == ANNOTATIONS;
  }

  lemma WithoutAnnotationsEffect(j: Json, ks: set<string>)
    requires PlainAnnotations(j)
    ensures Lacks(WithoutAnnotations(j, ks), j, ks)
  {
    var j' := WithoutAnnotations(j, ks);
    if Has(j, ANNOTATIONS) {
      var fields := Get(j, ANNOTATIONS).value.fields;
      SetEffect(j, ANNOTATIONS, Obj(fields - ks));
      GetLast(j, ANNOTATIONS);
      forall q ensures LabelAt(j', q) == if InAnnotations(q, ks) then None else LabelAt(j, q) {
        if ANNOTATIONS <= q {
          var rest := q[2..];
          assert q == ANNOTATIONS + rest;
          GetConcat(j, ANNOTATIONS, rest);
          assert LabelAt(j', q) == LabelAt(Obj(fields - ks), rest);
          if rest != [] {
            LabelStep(Obj(fields - ks), rest);
            LabelStep(Obj(fields), rest);
            assert rest[0] == q[2];
          }
        }
      }
    } else {
      forall q ensures InAnnotations(q, ks) ==> !Has(j, q) {
        if InAnnotations(q, ks) && Has(j, q) { GetPrefix(j, ANNOTATIONS, q); }
      }
    }
  }

  /** One deletion brings the document one annotation further. */
  lemma {:induction false} DeleteAnnotation(j: Json, cur: Json, done: set<string>, a: string)
    requires PlainAnnotations(j) && a in AnnotationsOf(j) && a !in done
    requires Lacks(cur, j, done)
    ensures Delete(cur, AnnotationAt(a)).Some?
    ensures Lacks(Delete(cur, AnnotationAt(a)).value, j, done + {a})
    ensures forall q :: AnnotationAt(a) < q ==> !Has(cur, q)
  {
    AnnotationSteps(j, a);
    var at := AnnotationAt(a);
    assert !InAnnotations(ANNOTATIONS, done) && !InAnnotations(at, done);
    assert LabelAt(cur, ANNOTATIONS) == LabelAt(j, ANNOTATIONS) == Some(LObj);
    assert LabelAt(cur, at) == LabelAt(j, at);
    DeleteEffect(cur, at);
    forall q ensures at <= q <==> InAnnotations(q, {a}) {
      assert ANNOTATIONS < q ==> (at <= q <==> q[2] == a);
    }
    forall q | at < q ensures !Has(cur, q) {
      if Has(j, q) { GetPrefix(j, at, q); }
      assert LabelAt(cur, q) == if InAnnotations(q, done) then None else LabelAt(j, q);
    }
  }

  /** The i-th element of r is one of s, and what comes before it in s comes before it in r, but for val. */
  ghost predicate InPlaceOf(s: seq<string>, r: seq<string>, val: string, i: nat)
    requires i < |r|
  {
    exists k :: 0 <= k < |s| && s[k] == r[i] && forall x :: x in s[..k] && x != val ==> x in r[..i]
  }

  lemma {:induction false} WithoutFirstIsFilter(s: seq<string>, val: string)
    requires Distinct(s)
    ensures var r := WithoutFirst(s, val);
            && Distinct(r) && (forall x :: x in r <==> x in s && x != val)
            && forall i :: 0 <= i < |r| ==> InPlaceOf(s, r, val, i)
  {
    var r := WithoutFirst(s, val);
    if s != [] {
      TailIsDistinct(s);
      if s[0] == val {
        forall i | 0 <= i < |r| ensures InPlaceOf(s, r, val, i) {
          assert s[..i + 1] == [s[0]] + r[..i];
          assert s[i + 1] == r[i];
        }
      } else {
        WithoutFirstIsFilter(s[1..], val);
        var r' := WithoutFirst(s[1..], val);
        assert r == [s[0]] + r';
        forall i | 0 <= i < |r| ensures InPlaceOf(s, r, val, i) { InPlaceAfter(s, r', val, i); }
      }
    }
  }

  lemma TailIsDistinct(s: seq<string>)
    requires Distinct(s) && s != []
    ensures Distinct(s[1..]) && s[0] !in s[1..] && s == [s[0]] + s[1..]
  {
    forall i, k | 0 <= i < k < |s[1..]| ensures s[1..][i] != s[1..][k] { assert s[i + 1] != s[k + 1]; }
  }

  lemma InPlaceAfter(s: seq<string>, r: seq<string>, val: string, i: nat)
    requires s != [] && i <= |r| && (i > 0 ==> InPlaceOf(s[1..], r, val, i - 1))
    ensures InPlaceOf(s, [s[0]] + r, val, i)
  {
    var all := [s[0]] + r;
    if i == 0 {
      assert s[..0] == [] && s[0] == all[0];
    } else {
      var k :| 0 <= k < |s[1..]| && s[1..][k] == r[i - 1] && forall x :: x in s[1..][..k] && x != val ==>
                                                                           x in r[..i - 1];
      assert s[..k + 1] == [s[0]] + s[1..][..k] && all[..i] == [s[0]] + r[..i - 1];
      assert s[k + 1] == all[i];
    }
  }

  /** Deleting a leaf from the document and its pointer from the list keeps the two in step. */
  lemma {:induction false} RemoveFromWalk(paths: seq<string>, j: Json, j': Json, at: Position)
    requires IsWalk(paths, j) && at != []
    requires forall q :: LabelAt(j', q) == if at <= q then None else LabelAt(j, q)
    requires forall q :: at < q ==> !Has(j, q)
    ensures IsWalk(WithoutFirst(paths, Enc(at)), j')
  {
    hide Enc, Dec, Get, WithoutFirst, IsWalk;
    var r := WithoutFirst(paths, Enc(at));
    WalkIsExact(paths, j);
    WithoutFirstIsFilter(paths, Enc(at));
    forall i | 0 <= i < |r|
      ensures PointerInto(r[i], j')
      ensures AncestorsIn(Dec(r[i]), [], r[..i])
    {
      assert InPlaceOf(paths, r, Enc(at), i);
      var k :| 0 <= k < |paths| && paths[k] == r[i] && forall x :: x in paths[..k] && x != Enc(at) ==> x in r[..i];
      assert r[i] in r;
      assert PointerInto(paths[k], j) && AncestorsIn(Dec(paths[k]), [], paths[..k]);
      PointerKept(r[i], j, j', at);
      AncestorsKept(Dec(r[i]), j, at, paths[..k], r[..i]);
    }
    assert AllInto(r, j') && ParentsFirst(r, []);
    AllOfKept(paths, r, j, j', at);
    WalkIsExact(r, j');
  }

  lemma AllOfKept(paths: seq<string>, r: seq<string>, j: Json, j': Json, at: Position)
    requires AllOf(paths, j)
    requires forall x :: x in paths && x != Enc(at) ==> x in r
    requires forall q :: LabelAt(j', q) == if at <= q then None else LabelAt(j, q)
    ensures AllOf(r, j')
  {
    DecEnc(at);
    forall q | q != [] && Has(j', q) ensures Enc(q) in r {
      assert LabelAt(j', q) == if at <= q then None else LabelAt(j, q);
      PrefixCases(at, q);
      DecEnc(q);
    }
  }

  lemma PointerKept(s: string, j: Json, j': Json, at: Position)
    requires PointerInto(s, j) && s != Enc(at)
    requires LabelAt(j', Dec(s)) == if at <= Dec(s) then None else LabelAt(j, Dec(s))
    requires at < Dec(s) ==> !Has(j, Dec(s))
    ensures PointerInto(s, j')
  {
    PrefixCases(at, Dec(s));
  }

  lemma PrefixCases(p: Position, q: Position)
    ensures p <= q <==> p < q || p == q
  {
  }

  lemma AncestorsKept(q: Position, j: Json, at: Position, before: seq<string>, kept: seq<string>)
    requires Has(j, q) && AncestorsIn(q, [], before)
    requires forall s :: at < s ==> !Has(j, s)
    requires forall x :: x in before && x != Enc(at) ==> x in kept
    ensures AncestorsIn(q, [], kept)
  {
    forall n | 0 < n < |q| ensures Enc(q[..n]) in kept {
      DecEnc(q[..n]);
      DecEnc(at);
    }
  }

  /** The last applied apiVersion takes the place of the outdated one, and of no other. */
  lemma FixedApiVersion(j: Json, lastApplied: Json)
    ensures Get(FixApiVersion(j, lastApplied), ["apiVersion"]) ==
            if Get(j, ["apiVersion"]) == Some(Str("extensions/v1beta1")) && Has(lastApplied, ["apiVersion"])
            then Get(lastApplied, ["apiVersion"]) else Get(j, ["apiVersion"])
  {
    if Has(lastApplied, API_VERSION) && Has(j, API_VERSION) {
      var v := Get(lastApplied, API_VERSION).value;
      SetEffect(j, API_VERSION, v);
      GetLast(j, API_VERSION);
      GetAfterSet(j, API_VERSION, v);
    }
  }

  lemma FixApiVersionEffect(j: Json, lastApplied: Json)
    requires PlainApiVersion(lastApplied)
    ensures forall q :: q != API_VERSION ==> LabelAt(FixApiVersion(j, lastApplied), q) == LabelAt(j, q)
    ensures forall q :: Has(FixApiVersion(j, lastApplied), q) <==> Has(j, q)
  {
    var j' := FixApiVersion(j, lastApplied);
    if j' != j {
      var v := Get(lastApplied, API_VERSION).value;
      SetEffect(j, API_VERSION, v);
      GetAfterSet(j, API_VERSION, v);
      forall q | API_VERSION < q ensures !Has(j, q) && !Has(j', q) {
        if Has(j, q) { GetPrefix(j, API_VERSION, q); }
        if Has(j', q) { GetPrefix(j', API_VERSION, q); }
      }
      forall q
        ensures Has(j', q) <==> Has(j, q)
        ensures q != API_VERSION ==> LabelAt(j', q) == LabelAt(j, q)
      {
        if !(API_VERSION <= q) { assert LabelAt(j', q) == LabelAt(j, q); }
      }
    }
  }

  lemma {:induction false} SameAnnotations(j: Json, lastApplied: Json)
    requires PlainApiVersion(lastApplied)
    ensures Get(FixApiVersion(j, lastApplied), ANNOTATIONS) == Get(j, ANNOTATIONS)
  {
    var fixed := FixApiVersion(j, lastApplied);
    FixApiVersionEffect(j, lastApplied);
    forall s ensures LabelAt(fixed, ANNOTATIONS + s) == LabelAt(j, ANNOTATIONS + s) {
      assert (ANNOTATIONS + s)[0] != API_VERSION[0];
    }
    SameBelow(fixed, j, ANNOTATIONS);
  }

  lemma ApiVersionStays(j: Json, j': Json, ks: set<string>)
    requires Lacks(j', j, ks)
    ensures Get(j', API_VERSION) == Get(j, API_VERSION)
  {
    hide Get;
    forall s ensures LabelAt(j', API_VERSION + s) == LabelAt(j, API_VERSION + s) {
      assert (API_VERSION + s)[0] != ANNOTATIONS[0];
    }
    SameBelow(j', j, API_VERSION);
  }

  lemma LacksNothing(j: Json)
    ensures Lacks(j, j, {})
  {
  }

  lemma PreparedEffect(config: Json, unmanaged: set<string>, lastApplied: Json)
    requires PlainAnnotations(config) && PlainApiVersion(lastApplied)
    ensures forall q :: q != API_VERSION ==>
                          LabelAt(Prepared(config, unmanaged, lastApplied), q) ==
                          if ["metadata", "annotations"] < q && q[2] in unmanaged then None else LabelAt(config, q)
    ensures Get(Prepared(config, unmanaged, lastApplied), ["apiVersion"]) ==
            if Get(config, ["apiVersion"]) == Some(Str("extensions/v1beta1")) && Has(lastApplied, ["apiVersion"])
            then Get(lastApplied, ["apiVersion"]) else Get(config, ["apiVersion"])
    ensures PlainAnnotations(FixApiVersion(config, lastApplied))
    ensures PlainAnnotations(Prepared(config, unmanaged, lastApplied))
  {
    var fixed := FixApiVersion(config, lastApplied);
    var j := Prepared(config, unmanaged, lastApplied);
    FixApiVersionEffect(config, lastApplied);
    SameAnnotations(config, lastApplied);
    WithoutAnnotationsEffect(fixed, unmanaged);
    ApiVersionStays(fixed, j, unmanaged);
    FixedApiVersion(config, lastApplied);
    assert LabelAt(j, ANNOTATIONS) == LabelAt(config, ANNOTATIONS);
    if Has(j, ANNOTATIONS) {
      var f := Get(j, ANNOTATIONS).value.fields;
      forall k | k in f ensures !IsCollection(f[k]) {
        AnnotationSteps(j, k);
        AnnotationSteps(config, k);
        assert LabelAt(j, AnnotationAt(k)) == LabelAt(config, AnnotationAt(k));
      }
    }
  }
}
