/** An idealised cluster: what the calls of a plan make of it, and that comparing again finds nothing to do. */
module Cluster {
  import opened Wrappers
  import opened Documents
  import opened Pointers
  import opened Preparing
  import opened Platform
  import opened Managed
  import opened Comparison
  import opened Items
  import opened Changes
  import opened Laws
  import opened Convergence
  import opened Planning

  datatype Key = Key(kind: string, name: string)

  /** A resource in the cluster, and the configuration it records as last applied. */
  datatype Entry = Entry(config: Json, lastApplied: Json)

  type State = map<Key, Entry>

  datatype Call = DeleteCall(key: Key) | ApplyCall(desired: Json)

  predicate HasIdentity(j: Json, key: Key) {
    Get(j, KIND) == Some(Str(key.kind)) && Get(j, NAME) == Some(Str(key.name))
  }

  /** Kind and name of a document, which tell the server which resource it is about. */
  function KeyOf(j: Json): (key: Option<Key>)
    ensures key.Some? ==> HasIdentity(j, key.value)
  {
    var kind, name := Get(j, KIND), Get(j, NAME);
    if IsString(kind) && IsString(name) then Some(Key(kind.value.s, name.value.s)) else None
  }

  function KeyIn(s: Snapshot): Key {
    Key(s.kind, s.name)
  }

  /** s is what parsing the document of the resource yields. */
  ghost predicate Represents(s: Snapshot, config: Json, lastApplied: Json) {
    && IdentityOf(config, s.kind, s.name)
    && Cleaned(config, s.config) && s.annotations == AnnotationsOf(s.config).Keys
    && s.lastApplied == lastApplied && s.lastAppliedAnnotations == AnnotationsOf(lastApplied).Keys
  }

  const NOTHING_APPLIED: Json := Obj(map[])

  /** ts is the list of the described resources. */
  ghost predicate RepresentsTemplates(ts: seq<Snapshot>, templates: seq<Json>) {
    |ts| == |templates| && forall i :: 0 <= i < |ts| ==> Represents(ts[i], templates[i], NOTHING_APPLIED)
  }

  ghost predicate RepresentsEntry(p: Snapshot, cluster: State) {
    && KeyIn(p) in cluster
    && Represents(p, cluster[KeyIn(p)].config, cluster[KeyIn(p)].lastApplied)
  }

  /** ps is a list of the resources in the cluster, in some order. */
  ghost predicate RepresentsCluster(ps: seq<Snapshot>, cluster: State) {
    && UniqueKeys(ps)
    && (forall j :: 0 <= j < |ps| ==> RepresentsEntry(ps[j], cluster))
    && (forall k :: k in cluster ==> exists j :: 0 <= j < |ps| && KeyIn(ps[j]) == k)
  }

  /** The resources that are compared: not the secrets of no interest. */
  function Visible(cluster: State): State {
    map k | k in cluster && IsComparable(cluster[k].config) :: cluster[k]
  }

  /** The described resources that are compared. */
  function DescribedBy(templates: seq<Json>): seq<Json> {
    if templates == [] then []
    else
      var n := |templates| - 1;
      DescribedBy(templates[..n]) + if IsComparable(templates[n]) then [templates[n]] else []
  }

  /** The server's behaviour: what it stores when the n-th call applies a document. */
  type Storing = (nat, Json) -> Entry

  function Step(cluster: State, call: Call, n: nat, stores: Storing): State {
    match call
    case DeleteCall(key) => cluster - {key}
    case ApplyCall(d) => var key := KeyOf(d); if key.Some? then cluster[key.value := stores(n, d)] else cluster
  }

  /** The cluster after the calls, the first of which is the n-th. */
  function Run(cluster: State, calls: seq<Call>, n: nat, stores: Storing): State {
    if calls == [] then cluster
    else Step(Run(cluster, calls[..|calls| - 1], n, stores), calls[|calls| - 1], n + |calls| - 1, stores)
  }

  /** e is the resource that the template t describes, once the document d was applied. */
  ghost predicate Stores(t: Snapshot, d: Json, e: Entry) {
    e.lastApplied == d && exists extras :: Foreign(extras, t, d) && Cleaned(e.config, Annotated(d, extras))
  }

  /** An idealised server keeps what is applied and records it as last applied. Beside it, the server may
      hold any platform-managed fields and any annotations that neither the template nor the document has. */
  ghost predicate IdealServer(stores: Storing, ts: seq<Snapshot>) {
    forall n, d, i :: 0 <= i < |ts| && KeyOf(d) == Some(KeyIn(ts[i])) && Storable(d) && Cleaned(d, d) ==>
                        Stores(ts[i], d, stores(n, d))
  }

  /** The server that stores the document itself, with an annotations object in any case, is an ideal one. */
  lemma PlainServerIsIdeal(ts: seq<Snapshot>)
    ensures IdealServer((n, d) => Entry(Annotated(d, map[]), d), ts)
  {
    hide Get, IsManaged, Annotated, PlainAnnotations, KeyOf, AnnotationsOf;
    forall d, i | 0 <= i < |ts| && Storable(d) && Cleaned(d, d)
      ensures Stores(ts[i], d, Entry(Annotated(d, map[]), d))
    {
      AnnotatedEffect(d, map[]);
      forall q
        ensures LabelAt(Annotated(d, map[]), q) == if IsManaged(q) then None else LabelAt(Annotated(d, map[]), q)
      {
        if ANNOTATIONS <= q {
          NotManaged(q);
        } else {
          assert LabelAt(Annotated(d, map[]), q) == LabelAt(d, q);
        }
      }
      assert Foreign(map[], ts[i], d);
    }
  }

  // ---- runs ----

  lemma RunNext(cluster: State, calls: seq<Call>, call: Call, n: nat, stores: Storing)
    ensures Run(cluster, calls + [call], n, stores) == Step(Run(cluster, calls, n, stores), call, n + |calls|, stores)
  {
    assert (calls + [call])[..|calls|] == calls;
  }

  lemma {:induction false} RunConcat(cluster: State, a: seq<Call>, b: seq<Call>, n: nat, stores: Storing)
    ensures Run(cluster, a + b, n, stores) == Run(Run(cluster, a, n, stores), b, n + |a|, stores)
  {
    if b == [] {
      assert a + b == a;
    } else {
      assert (a + b)[..|a + b| - 1] == a + b[..|b| - 1];
      RunConcat(cluster, a, b[..|b| - 1], n, stores);
    }
  }

  /** Deletions remove exactly the deleted keys. */
  lemma {:induction false} RunDeletions(cluster: State, calls: seq<Call>, n: nat, stores: Storing)
    requires forall c :: c in calls ==> c.DeleteCall?
    ensures forall k :: k in Run(cluster, calls, n, stores) <==> k in cluster && DeleteCall(k) !in calls
    ensures forall k :: k in Run(cluster, calls, n, stores) ==> Run(cluster, calls, n, stores)[k] == cluster[k]
  {
    if calls != [] {
      assert calls == calls[..|calls| - 1] + [calls[|calls| - 1]];
      RunDeletions(cluster, calls[..|calls| - 1], n, stores);
    }
  }

  /** The applied document is about the resource k. */
  predicate AppliesTo(c: Call, k: Key) {
    c.ApplyCall? && KeyOf(c.desired) == Some(k)
  }

  /** e is what the server stored for one of the calls that apply a document about k. */
  ghost predicate StoredFor(calls: seq<Call>, k: Key, e: Entry, stores: Storing) {
    exists c, m :: c in calls && AppliesTo(c, k) && e == stores(m, c.desired)
  }

  lemma StepElsewhere(cluster: State, call: Call, n: nat, stores: Storing, k: Key)
    requires call.ApplyCall? && !AppliesTo(call, k)
    ensures var after := Step(cluster, call, n, stores);
            (k in after <==> k in cluster) && (k in cluster ==> after[k] == cluster[k])
  {
    hide KeyOf;
  }

  /** After applying documents, a resource is as before unless one of them is about it; then it is what the
      server stored for one of those. */
  lemma {:induction false} RunApplications(cluster: State, calls: seq<Call>, n: nat, stores: Storing, k: Key)
    requires forall c :: c in calls ==> c.ApplyCall?
    ensures var after := Run(cluster, calls, n, stores);
            if exists c :: c in calls && AppliesTo(c, k) then k in after && StoredFor(calls, k, after[k], stores)
            else (k in after <==> k in cluster) && (k in cluster ==> after[k] == cluster[k])
  {
    hide KeyOf;
    if calls != [] {
      var init, last := calls[..|calls| - 1], calls[|calls| - 1];
      assert calls == init + [last];
      RunApplications(cluster, init, n, stores, k);
      var before, after := Run(cluster, init, n, stores), Run(cluster, calls, n, stores);
      if AppliesTo(last, k) {
        assert after[k] == stores(n + |calls| - 1, last.desired);
      } else {
        StepElsewhere(before, last, n + |init|, stores, k);
        if c :| c in calls && AppliesTo(c, k) {
          assert c in init;
          var c', m :| c' in init && AppliesTo(c', k) && before[k] == stores(m, c'.desired);
          assert c' in calls;
        }
      }
    }
  }

  /** Calls that apply only what is compared have the same effect on the resources that are compared, whatever
      else is in the cluster. */
  lemma {:induction false} RunVisible(cluster: State, calls: seq<Call>, n: nat, stores: Storing)
    requires forall c, m :: c in calls && c.ApplyCall? && KeyOf(c.desired).Some? ==>
                              IsComparable(stores(m, c.desired).config)
    ensures Visible(Run(cluster, calls, n, stores)) == Run(Visible(cluster), calls, n, stores)
  {
    hide KeyOf, IsComparable;
    if calls != [] {
      var init, last := calls[..|calls| - 1], calls[|calls| - 1];
      assert calls == init + [last];
      RunVisible(cluster, init, n, stores);
      VisibleStep(Run(cluster, init, n, stores), last, n + |init|, stores);
    }
  }

  lemma VisibleStep(cluster: State, call: Call, n: nat, stores: Storing)
    requires call.ApplyCall? && KeyOf(call.desired).Some? ==> IsComparable(stores(n, call.desired).config)
    ensures Visible(Step(cluster, call, n, stores)) == Step(Visible(cluster), call, n, stores)
  {
    hide KeyOf, IsComparable;
  }

  // ---- desired documents ----

  ghost predicate NoManaged(j: Json) {
    forall q :: IsManaged(q) ==> !Has(j, q)
  }

  lemma NoManagedIsClean(j: Json)
    requires NoManaged(j)
    ensures Cleaned(j, j)
  {
  }

  lemma {:induction false} PreserveHas(t: Json, p: Json, rs: seq<string>, q: Position)
    requires AllProper(rs)
    ensures Has(PreserveAll(t, p, rs), q) ==> Has(t, q) || Has(p, q)
  {
    hide Enc, Dec, Get, Preserve;
    if rs != [] {
      PreserveHas(t, p, rs[..|rs| - 1], q);
      assert ProperPointer(rs[|rs| - 1]);
      PreserveOneHas(PreserveAll(t, p, rs[..|rs| - 1]), p, Dec(rs[|rs| - 1]), q);
    }
  }

  lemma PreserveOneHas(t: Json, p: Json, r: Position, q: Position)
    requires r != []
    ensures Has(Preserve(t, p, r), q) ==> Has(t, q) || Has(p, q)
  {
    hide Get, Set, Documents.Delete;
    if Has(p, r) {
      var v := Get(p, r).value;
      SetEffect(t, r, v);
      if r <= q {
        assert q == r + q[|r|..];
        GetConcat(p, r, q[|r|..]);
      }
      if Set(t, r, v).Some? {
        assert LabelAt(Set(t, r, v).value, q) == if r <= q then LabelAt(v, q[|r|..]) else LabelAt(t, q);
      }
    } else {
      DeleteEffect(t, r);
      if Documents.Delete(t, r).Some? {
        assert LabelAt(Documents.Delete(t, r).value, q) == if r <= q then None else LabelAt(t, q);
      }
    }
  }

  lemma DesiredHasNoManaged(t: Snapshot, p: Snapshot, rs: seq<string>, d: Json)
    requires WellBehaved(t, p, rs) && Desired(t, p, rs, d) && NoManaged(t.config) && NoManaged(p.config)
    ensures NoManaged(d)
  {
    hide Get, Enc, Dec, IsManaged, Prepared, PreserveAll, NothingHidden, Desired;
    forall q | IsManaged(q) ensures !Has(d, q) {
      DesiredLabels(t, p, rs, d, q);
      assert AllProper(rs);
      PreserveHas(t.config, p.config, rs, q);
      PreparedHas(p.config, Unmanaged(p.annotations, t.annotations, p.lastAppliedAnnotations), p.lastApplied, q);
    }
  }

  /** A string that both sides agree on, at a position with no preserved path above it, stays. */
  lemma StringSurvives(t: Snapshot, p: Snapshot, rs: seq<string>, d: Json, q: Position, s: string)
    requires WellBehaved(t, p, rs) && Desired(t, p, rs, d)
    requires q != [] && Get(t.config, q) == Some(Str(s)) && Get(p.config, q) == Some(Str(s))
    requires Unrelated(q, ANNOTATIONS) && Unrelated(q, API_VERSION)
    requires forall i :: 0 <= i < |rs| && Dec(rs[i]) <= q ==> Dec(rs[i]) == q
    ensures Get(d, q) == Some(Str(s))
  {
    hide Get, Enc, Dec, PreserveAll, Prepared, NothingHidden, Desired;
    var t1, p1 := TemplateDocument(t, p, rs), PlatformDocument(t, p);
    PreserveAllEffect(t.config, p.config, rs);
    PreparedElsewhere(p.config, Unmanaged(p.annotations, t.annotations, p.lastAppliedAnnotations), p.lastApplied, q);
    if i :| 0 <= i < |rs| && Dec(rs[i]) <= q {
      assert Agree(t1, p.config, Dec(rs[i]));
      PreservedIsSet(t.config, p.config, rs, q);
    } else {
      assert Unpreserved(q, rs);
      assert LabelAt(t1, q) == LabelAt(t.config, q);
    }
    assert LabelAt(t1, q) == Some(LStr(s)) by { LabelOfString(t1, t.config, p.config, q, s); }
    DesiredLabels(t, p, rs, d, q);
    StringOfLabel(d, q, s);
  }

  lemma LabelOfString(t1: Json, t: Json, p: Json, q: Position, s: string)
    requires Get(t, q) == Some(Str(s)) && Get(p, q) == Some(Str(s))
    requires LabelAt(t1, q) == LabelAt(t, q) || Get(t1, q) == Get(p, q)
    ensures LabelAt(t1, q) == Some(LStr(s))
  {
  }

  lemma StringOfLabel(j: Json, q: Position, s: string)
    ensures LabelAt(j, q) == Some(LStr(s)) <==> Get(j, q) == Some(Str(s))
  {
  }

  lemma DesiredIdentity(t: Snapshot, p: Snapshot, rs: seq<string>, d: Json, key: Key)
    requires WellBehaved(t, p, rs) && Desired(t, p, rs, d)
    requires HasIdentity(t.config, key) && HasIdentity(p.config, key)
    ensures HasIdentity(d, key)
  {
    hide Get, Enc, Dec, Preservable, Desired, NothingHidden;
    assert KIND[0] != ANNOTATIONS[0] && KIND[0] != API_VERSION[0] && NAME[0] != API_VERSION[0] &&
           NAME[1] != ANNOTATIONS[1];
    forall i | 0 <= i < |rs|
      ensures Dec(rs[i]) <= KIND ==> Dec(rs[i]) == KIND
      ensures Dec(rs[i]) <= NAME ==> Dec(rs[i]) == NAME
    {
      assert Unrelated(Dec(rs[i]), ANNOTATIONS);
      AboveName(Dec(rs[i]));
    }
    StringSurvives(t, p, rs, d, KIND, key.kind);
    StringSurvives(t, p, rs, d, NAME, key.name);
  }

  lemma AboveName(r: Position)
    requires Unrelated(r, ANNOTATIONS)
    ensures r <= NAME ==> r == NAME
    ensures r <= KIND ==> r == KIND
  {
    if r <= NAME {
      assert r == [] || r == METADATA || r == NAME;
      assert [] <= ANNOTATIONS && METADATA <= ANNOTATIONS;
    }
  }

  // ---- secrets of no interest ----

  lemma SameComparable(a: Json, b: Json)
    requires LabelAt(a, KIND) == LabelAt(b, KIND) && LabelAt(a, SECRET_TYPE) == LabelAt(b, SECRET_TYPE)
    ensures IsComparable(a) <==> IsComparable(b)
  {
  }

  /** What is compared stays what is compared. */
  lemma DesiredIsComparable(t: Snapshot, p: Snapshot, rs: seq<string>, d: Json, key: Key)
    requires WellBehaved(t, p, rs) && Desired(t, p, rs, d) && IsComparable(t.config) && IsComparable(p.config)
    requires HasIdentity(t.config, key) && HasIdentity(p.config, key)
    ensures IsComparable(d)
  {
    hide Get, Enc, Dec, PreserveAll, Prepared, NothingHidden, Desired, WellBehaved;
    DesiredIdentity(t, p, rs, d, key);
    if !IsComparable(d) {
      var x := Get(d, SECRET_TYPE).value.s;
      StringOfLabel(d, SECRET_TYPE, x);
      DesiredLabels(t, p, rs, d, SECRET_TYPE);
      NoEmptyString(TemplateDocument(t, p, rs), PlatformDocument(t, p), d, SECRET_TYPE, x);
      PreservedOrNot(t, p, rs, SECRET_TYPE);
      StringOfLabel(t.config, SECRET_TYPE, x);
      StringOfLabel(p.config, SECRET_TYPE, x);
    }
  }

  lemma NoEmptyString(t: Json, p: Json, d: Json, q: Position, x: string)
    requires FromEither(t, p, d, q) && LabelAt(d, q) == Some(LStr(x))
    ensures LabelAt(t, q) == Some(LStr(x))
  {
  }

  lemma PreservedOrNot(t: Snapshot, p: Snapshot, rs: seq<string>, q: Position)
    requires WellBehaved(t, p, rs)
    ensures var t1 := TemplateDocument(t, p, rs);
            LabelAt(t1, q) == LabelAt(t.config, q) || LabelAt(t1, q) == LabelAt(p.config, q) || !Has(t1, q)
  {
    hide Get, Enc, Dec, PreserveAll, NothingHidden, PlatformDocument;
    PreserveAllEffect(t.config, p.config, rs);
    var t1 := TemplateDocument(t, p, rs);
    if !Unpreserved(q, rs) && Has(t1, q) {
      var i :| 0 <= i < |rs| && Dec(rs[i]) <= q;
      assert Agree(t1, p.config, Dec(rs[i]));
      SameBelowPrefix(t1, p.config, Dec(rs[i]), q);
    }
  }

  // ---- reading back ----

  lemma CleanedIsUnique(j: Json, a: Json, b: Json)
    requires Cleaned(j, a) && Cleaned(j, b)
    ensures a == b
  {
    hide Get, IsManaged;
    SameLabels(a, b);
  }

  /** What is parsed from a stored entry is what was applied, read back. */
  lemma StoredIsReadBack(t: Snapshot, d: Json, e: Entry, p: Snapshot)
    requires Stores(t, d, e) && Represents(p, e.config, e.lastApplied) && KeyIn(p) == KeyIn(t)
    ensures ReadBack(t, d, p)
  {
    hide Get, Cleaned, Annotated;
    var extras :| Foreign(extras, t, d) && Cleaned(e.config, Annotated(d, extras));
    CleanedIsUnique(e.config, p.config, Annotated(d, extras));
  }

  /** Applying d for the template t leaves nothing to do. */
  ghost predicate GoodDocument(t: Snapshot, rs: seq<string>, d: Json) {
    && KeyOf(d) == Some(KeyIn(t)) && Storable(d) && Cleaned(d, d) && IsComparable(d)
    && forall p :: ReadBack(t, d, p) ==> NothingToDo(t, p, rs)
  }

  /** A described resource that the model covers. */
  ghost predicate ProperDescription(t: Snapshot, rs: seq<string>) {
    && ProperTemplate(t.config) && HasIdentity(t.config, KeyIn(t)) && NoManaged(t.config) && IsComparable(t.config)
    && GoodArguments(t.config, rs)
  }

  ghost predicate ProperResource(p: Snapshot) {
    HasIdentity(p.config, KeyIn(p)) && NoManaged(p.config) && IsComparable(p.config)
  }

  lemma CreationIsGood(t: Snapshot, rs: seq<string>)
    requires ProperDescription(t, rs)
    ensures GoodDocument(t, rs, t.config)
  {
    hide Get, NoManaged, GoodArguments, Cleaned, ReadBack, NothingToDo;
    NoManagedIsClean(t.config);
    forall p | ReadBack(t, t.config, p) ensures NothingToDo(t, p, rs) { CreationConverges(t, rs, p); }
  }

  lemma ChangeIsGood(t: Snapshot, p: Snapshot, rs: seq<string>, allowRecreate: bool, r: Outcome, d: Json)
    requires ProperDescription(t, rs) && ProperResource(p) && KeyIn(p) == KeyIn(t) && WellBehaved(t, p, rs)
    requires Correct(t.kind, t.name, TemplateDocument(t, p, rs), PlatformDocument(t, p), allowRecreate, r)
    requires r.Success? && |r.value| > 0 && r.value[|r.value| - 1].desired == Yaml(d)
    ensures GoodDocument(t, rs, d)
  {
    hide Get, NoManaged, GoodArguments, Cleaned, ReadBack, NothingToDo, WellBehaved, Correct, Desired, Storable;
    ResultIsDesired(t, p, rs, t.name, allowRecreate, r, d);
    DesiredIsStorable(t, p, rs, d);
    DesiredHasNoManaged(t, p, rs, d);
    NoManagedIsClean(d);
    DesiredIdentity(t, p, rs, d, KeyIn(t));
    DesiredIsComparable(t, p, rs, d, KeyIn(t));
    forall p' | ReadBack(t, d, p') ensures NothingToDo(t, p', rs) {
      ChangeConverges(t, p, rs, t.name, allowRecreate, r, d, p');
    }
  }
}
