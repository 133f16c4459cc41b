/** The comparison of all templates with the cluster (pkg/commands/diff.go, pkg/openshift/list.go). */
module Diffing {
  import opened Wrappers
  import opened Documents
  import opened Platform
  import opened Managed
  import opened Items
  import opened Changes
  import opened Preserving
  import opened Changesets
  import opened Planning
  import opened Conservation
  import opened Cluster
  import opened Reconciled
  import opened Executing

  datatype CompareOptions = CompareOptions(
    upsertOnly: bool,
    allowRecreate: bool,
    preserveImmutableFields: bool,
    preservePaths: seq<string>,
    force: bool,
    verify: bool)
  {
    /** All preserve arguments: the built-in ones, if asked for, and the given ones. */
    function Arguments(): seq<string> {
      PathsToPreserve(preserveImmutableFields, preservePaths)
    }
  }

  /** The items are what parsing the entries yields, each a different object. */
  ghost predicate Parsed(items: seq<ResourceItem>, entries: seq<Entry>)
    reads items
  {
    && |items| == |entries| && (forall i, j :: 0 <= i < j < |items| ==> items[i] != items[j])
    && forall i :: 0 <= i < |items| ==> ParsedOne(items[i], entries[i])
  }

  ghost predicate ParsedOne(item: ResourceItem, e: Entry)
    reads item
  {
    item.InStep() && Represents(item.Snap(), e.config, e.lastApplied)
  }

  method ParseOne(e: Entry) returns (r: Result<ResourceItem, Problem>)
    ensures r.Success? ==> fresh(r.value) && ParsedOne(r.value, e) && r.value.comparable == IsComparable(e.config)
    ensures r.Failure? ==> r.error.NotParsed?
    ensures r.Success? <==> e.config.Obj? && e.lastApplied.Obj? && Parsable(e.config, e.lastApplied)
  {
    hide Parsable, IdentityOf, Cleaned, AnnotationsOf, IsComparable;
    if !e.config.Obj? || !e.lastApplied.Obj? {
      return Failure(NotParsed(WrongType("")));
    }
    var item := new ResourceItem();
    var parsed := item.ParseConfig(e.config, e.lastApplied);
    if parsed.Failure? {
      return Failure(NotParsed(parsed.error));
    }
    return Success(item);
  }

  /** Without the secrets of no interest. */
  function ComparableOf(entries: seq<Entry>): seq<Entry> {
    if entries == [] then []
    else
      var n := |entries| - 1;
      ComparableOf(entries[..n]) + if IsComparable(entries[n].config) then [entries[n]] else []
  }

  /** Secrets of the two kinds that the platform generates are left out, and nothing else. */
  lemma {:induction false} ComparableOfMeaning(entries: seq<Entry>, e: Entry)
    ensures e in ComparableOf(entries) <==>
            e in entries && !(Get(e.config, ["kind"]) == Some(Str("Secret")) &&
                              (Get(e.config, ["type"]) == Some(Str("kubernetes.io/dockercfg")) ||
                               Get(e.config, ["type"]) == Some(Str("kubernetes.io/service-account-token"))))
  {
    hide Get;
    if entries != [] {
      var n := |entries| - 1;
      ComparableOfMeaning(entries[..n], e);
      assert entries == entries[..n] + [entries[n]];
    }
  }

  method AppendItems(entries: seq<Entry>) returns (r: Result<ResourceList, Problem>)
    ensures r.Success? ==> fresh(r.value) && fresh(r.value.items) && Parsed(r.value.items, ComparableOf(entries))
    ensures r.Failure? ==> r.error.NotParsed?
    ensures r.Success? <==>
            forall i :: 0 <= i < |entries| ==>
                          && entries[i].config.Obj? && entries[i].lastApplied.Obj?
                          && Parsable(entries[i].config, entries[i].lastApplied)
  {
    hide ParsedOne, Parsable, IsComparable;
    var items: seq<ResourceItem> := [];
    assert entries[..0] == [];
    for i := 0 to |entries|
      invariant fresh(items) && Parsed(items, ComparableOf(entries[..i]))
      invariant forall k :: 0 <= k < i ==>
                              entries[k].config.Obj? && entries[k].lastApplied.Obj? &&
                              Parsable(entries[k].config, entries[k].lastApplied)
    {
      var item := ParseOne(entries[i]);
      if item.Failure? {
        return Failure(item.error);
      }
      assert entries[..i + 1][..i] == entries[..i];
      if item.value.comparable {
        items := items + [item.value];
      }
    }
    assert entries[..|entries|] == entries;
    var list := new ResourceList(items);
    return Success(list);
  }

  function TemplateEntries(templates: seq<Json>): seq<Entry> {
    seq(|templates|, i requires 0 <= i < |templates| => Entry(templates[i], NOTHING_APPLIED))
  }

  /** keys are the keys of the cluster, in some order. */
  ghost predicate ListsKeys(keys: seq<Key>, cluster: Cluster.State) {
    && (forall i, j :: 0 <= i < j < |keys| ==> keys[i] != keys[j])
    && (forall k :: k in keys <==> k in cluster)
  }

  function EntriesOf(keys: seq<Key>, cluster: Cluster.State): seq<Entry>
    requires forall k :: k in keys ==> k in cluster
  {
    seq(|keys|, i requires 0 <= i < |keys| => cluster[keys[i]])
  }

  /** Lists the resources of the platform, in any order. */
  method Export(client: OcClient) returns (keys: Option<seq<Key>>)
    ensures keys.Some? ==> ListsKeys(keys.value, client.cluster)
  {
    var failed: bool := *;
    if failed {
      return None;
    }
    var listed, left := [], client.cluster.Keys;
    while left != {}
      invariant left <= client.cluster.Keys
      invariant forall i, j :: 0 <= i < j < |listed| ==> listed[i] != listed[j]
      invariant forall k :: k in listed <==> k in client.cluster && k !in left
      decreases left
    {
      var k :| k in left;
      listed, left := listed + [k], left - {k};
    }
    return Some(listed);
  }

  /** What a comparison of the templates with the cluster started from. */
  ghost predicate Compared(ts: seq<Snapshot>, ps: seq<Snapshot>, templates: seq<Json>, cluster: Cluster.State) {
    && RepresentsTemplates(ts, DescribedBy(templates))
    && (Keyed(Visible(cluster)) ==> RepresentsCluster(ps, Visible(cluster)))
  }

  ghost predicate IsPlanFor(options: CompareOptions, ts: seq<Snapshot>, ps: seq<Snapshot>, plan: Plan) {
    IsPlan(ts, ps, UniqueKeys(ts), options.upsertOnly, options.allowRecreate, options.Arguments(), plan)
  }

  /** A comparison of the templates with the cluster plans no change. */
  ghost predicate SeenInSync(options: CompareOptions, templates: seq<Json>, cluster: Cluster.State) {
    exists ts, ps, plan ::
      && Compared(ts, ps, templates, cluster) && IsPlanFor(options, ts, ps, plan)
      && Of(Create, plan.All()) == Of(Update, plan.All()) == Of(Action.Delete, plan.All()) == []
  }

  lemma {:induction false} DescribedEntries(templates: seq<Json>)
    ensures ComparableOf(TemplateEntries(templates)) == TemplateEntries(DescribedBy(templates))
  {
    hide IsComparable;
    if templates != [] {
      var n := |templates| - 1;
      DescribedEntries(templates[..n]);
      assert TemplateEntries(templates)[..n] == TemplateEntries(templates[..n]);
    }
  }

  lemma ParsedTemplates(items: seq<ResourceItem>, templates: seq<Json>)
    requires Parsed(items, ComparableOf(TemplateEntries(templates)))
    ensures RepresentsTemplates(Snaps(items), DescribedBy(templates)) && AllInStep(items)
  {
    hide Represents, DescribedBy, ComparableOf;
    DescribedEntries(templates);
    var described := DescribedBy(templates);
    forall i | 0 <= i < |items|
      ensures Represents(items[i].Snap(), described[i], NOTHING_APPLIED) && items[i].InStep()
    {
      assert ParsedOne(items[i], TemplateEntries(described)[i]);
    }
  }

  function VisibleKeys(keys: seq<Key>, cluster: Cluster.State): seq<Key> {
    if keys == [] then []
    else
      var n := |keys| - 1;
      VisibleKeys(keys[..n], cluster) + if keys[n] in Visible(cluster) then [keys[n]] else []
  }

  lemma {:induction false} VisibleKeysMeaning(keys: seq<Key>, cluster: Cluster.State)
    ensures forall k :: k in VisibleKeys(keys, cluster) <==> k in keys && k in Visible(cluster)
    ensures (forall i, j :: 0 <= i < j < |keys| ==> keys[i] != keys[j]) ==>
              forall i, j :: 0 <= i < j < |VisibleKeys(keys, cluster)| ==>
                               VisibleKeys(keys, cluster)[i] != VisibleKeys(keys, cluster)[j]
  {
    hide Visible;
    if keys != [] {
      var n := |keys| - 1;
      VisibleKeysMeaning(keys[..n], cluster);
      assert keys == keys[..n] + [keys[n]];
    }
  }

  lemma {:induction false} VisibleEntries(keys: seq<Key>, cluster: Cluster.State)
    requires forall k :: k in keys ==> k in cluster
    ensures forall k :: k in VisibleKeys(keys, cluster) ==> k in Visible(cluster)
    ensures ComparableOf(EntriesOf(keys, cluster)) == EntriesOf(VisibleKeys(keys, cluster), Visible(cluster))
  {
    hide IsComparable, Visible, VisibleKeys;
    VisibleKeysMeaning(keys, cluster);
    if keys != [] {
      var n := |keys| - 1;
      VisibleKeysMeaning(keys[..n], cluster);
      VisibleEntries(keys[..n], cluster);
      assert EntriesOf(keys, cluster)[..n] == EntriesOf(keys[..n], cluster);
      NextVisible(keys, cluster);
      if keys[n] in Visible(cluster) { NextEntry(VisibleKeys(keys[..n], cluster), keys[n], Visible(cluster)); }
    } else {
      NoVisibleKeys(cluster);
    }
  }

  lemma NextEntry(keys: seq<Key>, k: Key, cluster: Cluster.State)
    requires k in cluster && forall x :: x in keys ==> x in cluster
    ensures EntriesOf(keys + [k], cluster) == EntriesOf(keys, cluster) + [cluster[k]]
  {
  }

  lemma NoVisibleKeys(cluster: Cluster.State)
    ensures VisibleKeys([], cluster) == []
  {
  }

  lemma NextVisible(keys: seq<Key>, cluster: Cluster.State)
    requires keys != [] && keys[|keys| - 1] in cluster
    ensures var n := |keys| - 1;
            && VisibleKeys(keys, cluster) ==
               VisibleKeys(keys[..n], cluster) + (if keys[n] in Visible(cluster) then [keys[n]] else [])
            && (keys[n] in Visible(cluster) <==> IsComparable(cluster[keys[n]].config))
            && (keys[n] in Visible(cluster) ==> Visible(cluster)[keys[n]] == cluster[keys[n]])
  {
    hide IsComparable;
  }

  lemma ListsVisible(keys: seq<Key>, cluster: Cluster.State)
    requires ListsKeys(keys, cluster)
    ensures ListsKeys(VisibleKeys(keys, cluster), Visible(cluster))
    ensures ComparableOf(EntriesOf(keys, cluster)) == EntriesOf(VisibleKeys(keys, cluster), Visible(cluster))
  {
    hide VisibleKeys, ComparableOf;
    VisibleKeysMeaning(keys, cluster);
    VisibleEntries(keys, cluster);
  }

  lemma ParsedCluster(items: seq<ResourceItem>, keys: seq<Key>, cluster: Cluster.State)
    requires ListsKeys(keys, cluster) && Parsed(items, EntriesOf(keys, cluster))
    ensures AllInStep(items) && (Keyed(cluster) ==> RepresentsCluster(Snaps(items), cluster))
  {
    hide Represents, HasIdentity, Snaps;
    var ps, entries := Snaps(items), EntriesOf(keys, cluster);
    forall i | 0 <= i < |items|
      ensures items[i].InStep() && Represents(ps[i], entries[i].config, entries[i].lastApplied)
    {
      assert ParsedOne(items[i], entries[i]);
    }
    if Keyed(cluster) {
      forall i | 0 <= i < |items| ensures KeyIn(ps[i]) == keys[i] {
        SameIdentity(ps[i], entries[i], keys[i]);
      }
      forall k | k in cluster ensures exists j :: 0 <= j < |ps| && KeyIn(ps[j]) == k {
        var i :| 0 <= i < |keys| && keys[i] == k;
        assert KeyIn(ps[i]) == k;
      }
      DistinctKeys(ps, keys);
    }
  }

  lemma DifferentItems(a: seq<ResourceItem>, aEntries: seq<Entry>, b: seq<ResourceItem>, bEntries: seq<Entry>)
    requires Parsed(a, aEntries) && Parsed(b, bEntries) && forall item :: item in a ==> item !in b
    ensures Apart(a, b)
  {
    hide ParsedOne;
    forall i, j | 0 <= i < |a| && 0 <= j < |b| ensures a[i] != b[j] {
      assert a[i] in a && b[j] in b;
    }
  }

  lemma SameIdentity(p: Snapshot, e: Entry, key: Key)
    requires Represents(p, e.config, e.lastApplied) && HasIdentity(e.config, key)
    ensures KeyIn(p) == key
  {
  }

  lemma DistinctKeys(ps: seq<Snapshot>, keys: seq<Key>)
    requires |ps| == |keys| && (forall i :: 0 <= i < |ps| ==> KeyIn(ps[i]) == keys[i])
    requires forall i, j :: 0 <= i < j < |keys| ==> keys[i] != keys[j]
    ensures UniqueKeys(ps)
  {
    forall i, j | 0 <= i < j < |ps| ensures !Matches(ps[j], ps[i].kind, ps[i].name) {
      assert keys[i] != keys[j] && KeyIn(ps[i]) == keys[i] && KeyIn(ps[j]) == keys[j];
    }
  }

  /** The described resources. */
  method AssembleTemplateBasedResourceList(client: OcClient) returns (r: Result<ResourceList, Problem>)
    ensures r.Failure? ==> r.error.FetchFailed? || r.error.NotParsed?
    ensures r.Success? ==>
              && fresh(r.value) && fresh(r.value.items)
              && Parsed(r.value.items, ComparableOf(TemplateEntries(client.templates)))
              && RepresentsTemplates(Snaps(r.value.items), DescribedBy(client.templates)) && AllInStep(r.value.items)
  {
    hide ParsedOne, RepresentsTemplates, ComparableOf, DescribedBy;
    var failed: bool := *;
    if failed {
      return Failure(FetchFailed);
    }
    r := AppendItems(TemplateEntries(client.templates));
    if r.Success? { ParsedTemplates(r.value.items, client.templates); }
  }

  /** The resources in the cluster. */
  method AssemblePlatformBasedResourceList(client: OcClient)
    returns (r: Result<ResourceList, Problem>, ghost entries: seq<Entry>)
    ensures r.Failure? ==> r.error.FetchFailed? || r.error.NotParsed?
    ensures r.Success? ==>
              && fresh(r.value) && fresh(r.value.items) && Parsed(r.value.items, entries)
              && (Keyed(Visible(client.cluster)) ==> RepresentsCluster(Snaps(r.value.items), Visible(client.cluster)))
              && AllInStep(r.value.items)
  {
    hide ParsedOne, RepresentsCluster, Keyed, Visible, ComparableOf, VisibleKeys;
    var exported := Export(client);
    if exported.None? {
      return Failure(FetchFailed), [];
    }
    entries := ComparableOf(EntriesOf(exported.value, client.cluster));
    r := AppendItems(EntriesOf(exported.value, client.cluster));
    if r.Success? {
      ListsVisible(exported.value, client.cluster);
      ParsedCluster(r.value.items, VisibleKeys(exported.value, client.cluster), Visible(client.cluster));
    }
  }

  lemma AsManyDescribed(items: seq<ResourceItem>, templates: seq<Json>)
    requires RepresentsTemplates(Snaps(items), DescribedBy(templates))
    ensures |items| == 0 <==> DescribedBy(templates) == []
  {
    hide Represents, DescribedBy;
  }

  /** Compares the templates with the cluster. */
  method CalculateChangeset(options: CompareOptions, client: OcClient)
    returns (drift: bool, changeset: Changeset, error: Option<Problem>, ghost ts: seq<Snapshot>,
             ghost ps: seq<Snapshot>,
             ghost plan: Plan)
    ensures fresh(changeset) && changeset.Valid()
    ensures error.Some? ==>
              !drift && !error.value.CallFailed? && !error.value.VerificationFailed? && !error.value.InputEnded?
    ensures error.None? ==>
              && Compared(ts, ps, client.templates, client.cluster) && IsPlanFor(options, ts, ps, plan)
              && changeset.added == plan.All() && drift == !changeset.Blank()
    ensures error == Some(NothingDescribed) ==> DescribedBy(client.templates) == [] && !options.force
    ensures error.None? && DescribedBy(client.templates) == [] ==> options.force
    ensures error.Some? && error.value.NotCompared? ==>
              && Compared(ts, ps, client.templates, client.cluster)
              && SomeItemFails(ts, ps, UniqueKeys(ts), options.allowRecreate, options.Arguments(), error.value.error)
    ensures options.preserveImmutableFields ==> forall e :: error == Some(NotCompared(e)) ==> !e.Immutable?
  {
    hide ParsedOne, IsPlan, SomeItemFails, UniqueKeys, AllImmutablesPreserved, Snaps, AllInStep, Apart,
      RepresentsCluster, RepresentsTemplates, Parsed, Keyed, Changeset.Valid, Changeset.Blank, Visible, DescribedBy,
      ComparableOf;
    ts, ps, plan := [], [], Plan([], [], []);
    drift := false;
    changeset := new Changeset();
    var templateBasedList := AssembleTemplateBasedResourceList(client);
    if templateBasedList.Failure? {
      return false, changeset, Some(templateBasedList.error), ts, ps, plan;
    }
    var platformBasedList, entries := AssemblePlatformBasedResourceList(client);
    if platformBasedList.Failure? {
      return false, changeset, Some(platformBasedList.error), ts, ps, plan;
    }
    AsManyDescribed(templateBasedList.value.items, client.templates);
    if |templateBasedList.value.items| == 0 && !options.force {
      return false, changeset, Some(NothingDescribed), ts, ps, plan;
    }
    ts, ps := Snaps(templateBasedList.value.items), Snaps(platformBasedList.value.items);
    DifferentItems(platformBasedList.value.items, entries, templateBasedList.value.items,
                   ComparableOf(TemplateEntries(client.templates)));
    if options.preserveImmutableFields { AllImmutablesCovered(options.preservePaths); }
    var r;
    changeset, r, plan := NewChangeset(platformBasedList.value, templateBasedList.value, options.upsertOnly,
                                       options.allowRecreate, options.Arguments());
    if r.Failure? {
      return false, changeset, Some(NotCompared(r.error)), ts, ps, plan;
    }
    drift := !changeset.Blank();
    error := None;
  }
}
