/** From two lists of resources to a changeset (NewChangeset in pkg/openshift/changeset.go, with the list
    lookup of pkg/openshift/list.go). */
module Planning {
  import opened Wrappers
  import opened Preparing
  import opened Platform
  import opened Items
  import opened Changes
  import opened Preserving
  import opened Changesets

  class ResourceList {
    var items: seq<ResourceItem>

    constructor (items: seq<ResourceItem>)
      ensures this.items == items
    {
      this.items := items;
    }

    /** The first item with the given kind and name. */
    method GetItem(kind: string, name: string) returns (found: ResourceItem?)
      ensures var index := IndexOf(Snaps(items), kind, name);
              if found == null then index == |items| else index < |items| && found == items[index]
    {
      hide Snaps;
      for i := 0 to |items|
        invariant forall j :: 0 <= j < i ==> !(items[j].kind == kind && items[j].name == name)
      {
        if items[i].kind == kind && items[i].name == name {
          FirstIndex(Snaps(items), kind, name, i);
          return items[i];
        }
      }
      FirstIndex(Snaps(items), kind, name, |items|);
      return null;
    }
  }

  function Snaps(items: seq<ResourceItem>): (r: seq<Snapshot>)
    reads items
    ensures |r| == |items|
    ensures forall i :: 0 <= i < |items| ==> r[i] == items[i].Snap()
  {
    if items == [] then [] else Snaps(items[..|items| - 1]) + [items[|items| - 1].Snap()]
  }

  predicate Matches(s: Snapshot, kind: string, name: string) {
    s.kind == kind && s.name == name
  }

  /** The index of the first match, or the length of the list. */
  function IndexOf(list: seq<Snapshot>, kind: string, name: string): (i: nat)
    ensures i <= |list|
    ensures i < |list| ==> Matches(list[i], kind, name)
    ensures forall j :: 0 <= j < i ==> !Matches(list[j], kind, name)
  {
    if list == [] then 0
    else if Matches(list[0], kind, name) then 0
    else 1 + IndexOf(list[1..], kind, name)
  }

  lemma FirstIndex(list: seq<Snapshot>, kind: string, name: string, i: nat)
    requires i <= |list| && forall j :: 0 <= j < i ==> !Matches(list[j], kind, name)
    requires i < |list| ==> Matches(list[i], kind, name)
    ensures IndexOf(list, kind, name) == i
  {
  }

  predicate Contains(list: seq<Snapshot>, s: Snapshot) {
    IndexOf(list, s.kind, s.name) < |list|
  }

  ghost predicate UniqueKeys(list: seq<Snapshot>) {
    forall i, j :: 0 <= i < j < |list| ==> !Matches(list[j], list[i].kind, list[i].name)
  }

  function Deletion(p: Snapshot): Change {
    Change(Delete, p.kind, p.name, Yaml(p.config), NoState)
  }

  function Creation(t: Snapshot): Change {
    Change(Create, t.kind, t.name, NoState, Yaml(t.config))
  }

  /** Deletions of the platform resources that no template describes. */
  function Deletions(ps: seq<Snapshot>, ts: seq<Snapshot>): seq<Change> {
    if ps == [] then []
    else
      var init, last := Deletions(ps[..|ps| - 1], ts), ps[|ps| - 1];
      if Contains(ts, last) then init else init + [Deletion(last)]
  }

  /** Creations of the described resources that the platform lacks. */
  function Creations(ts: seq<Snapshot>, ps: seq<Snapshot>): seq<Change> {
    if ts == [] then []
    else
      var init, last := Creations(ts[..|ts| - 1], ps), ts[|ts| - 1];
      if Contains(ps, last) then init else init + [Creation(last)]
  }

  function Flatten(parts: seq<seq<Change>>): seq<Change> {
    if parts == [] then [] else Flatten(parts[..|parts| - 1]) + parts[|parts| - 1]
  }

  /** The changes that a plan consists of, before sorting: deletions, creations, and, for every template
      resource that the platform has, the result of the comparison. */
  datatype Plan = Plan(deletions: seq<Change>, creations: seq<Change>, compared: seq<seq<Change>>) {
    function All(): seq<Change> {
      deletions + creations + Flatten(compared)
    }
  }

  /** The i-th template's part of the plan. */
  ghost predicate PlansItem(ts: seq<Snapshot>, ps: seq<Snapshot>, sound: bool, allowRecreate: bool,
                            arguments: seq<string>, i: nat, changes: seq<Change>)
    requires i < |ts|
  {
    var t := ts[i];
    var rs, k := PathsFor(t.kind, t.name, arguments), IndexOf(ps, t.kind, t.name);
    if k == |ps| then changes == []
    else
      && WellFormed(t.kind, t.name, allowRecreate, changes)
      && (ImmutablesPreserved(t.kind, rs) ==> |changes| == 1)
      && (sound ==> Compares(t, ps[k], rs, allowRecreate, Success(changes)))
  }

  /** Why planning stops at the i-th template: an argument has no valid form, or the comparison fails. */
  ghost predicate FailsItem(ts: seq<Snapshot>, ps: seq<Snapshot>, sound: bool, allowRecreate: bool,
                            arguments: seq<string>, i: nat, error: Error)
    requires i < |ts|
  {
    var t := ts[i];
    var rs, k := PathsFor(t.kind, t.name, arguments), IndexOf(ps, t.kind, t.name);
    && k < |ps|
    && if error.InvalidPreserve? then error.argument in arguments && !ValidArgument(error.argument)
       else sound ==> Compares(t, ps[k], rs, allowRecreate, Failure(error))
  }

  ghost predicate SomeItemFails(ts: seq<Snapshot>, ps: seq<Snapshot>, sound: bool, allowRecreate: bool,
                                arguments: seq<string>, error: Error) {
    exists i :: 0 <= i < |ts| && FailsItem(ts, ps, sound, allowRecreate, arguments, i, error)
  }

  ghost predicate IsPlan(ts: seq<Snapshot>, ps: seq<Snapshot>, sound: bool, upsertOnly: bool, allowRecreate: bool,
                         arguments: seq<string>, plan: Plan) {
    && plan.deletions == (if upsertOnly then [] else Deletions(ps, ts))
    && plan.creations == Creations(ts, ps)
    && |plan.compared| == |ts|
    && forall i :: 0 <= i < |ts| ==> PlansItem(ts, ps, sound, allowRecreate, arguments, i, plan.compared[i])
  }

  /** All items of both lists are different objects. */
  predicate Apart(a: seq<ResourceItem>, b: seq<ResourceItem>) {
    && (forall i, j :: 0 <= i < j < |a| ==> a[i] != a[j])
    && (forall i, j :: 0 <= i < j < |b| ==> b[i] != b[j])
    && (forall i, j :: 0 <= i < |a| && 0 <= j < |b| ==> a[i] != b[j])
  }

  ghost predicate AllInStep(items: seq<ResourceItem>)
    reads items
  {
    forall i :: 0 <= i < |items| ==> items[i].InStep()
  }

  ghost predicate AsListed(item: ResourceItem, s: Snapshot, inStep: bool)
    reads item
  {
    item.Snap() == s && (inStep ==> item.InStep())
  }

  ghost predicate KindsKept(items: seq<ResourceItem>, list: seq<Snapshot>)
    requires |items| == |list|
    reads items
  {
    forall k :: 0 <= k < |list| ==> items[k].kind == list[k].kind && items[k].name == list[k].name
  }

  /** The template resources from the i-th on are as they were. */
  ghost predicate TemplatesPending(tItems: seq<ResourceItem>, ts: seq<Snapshot>, inStep: bool, i: nat)
    requires |tItems| == |ts|
    reads tItems
  {
    forall k :: i <= k < |ts| ==> AsListed(tItems[k], ts[k], inStep)
  }

  /** The platform resources that none of the first i templates describes are as they were. */
  ghost predicate PlatformPending(pItems: seq<ResourceItem>, ps: seq<Snapshot>, ts: seq<Snapshot>, inStep: bool, i: nat)
    requires |pItems| == |ps| && i <= |ts|
    reads pItems
  {
    forall j :: 0 <= j < |ps| && !Contains(ts[..i], ps[j]) ==> AsListed(pItems[j], ps[j], inStep)
  }

  method NewChangeset(platformBasedList: ResourceList, templateBasedList: ResourceList, upsertOnly: bool,
                      allowRecreate: bool, preservePaths: seq<string>)
    returns (changeset: Changeset, r: Result<(), Error>, ghost plan: Plan)
    requires Apart(platformBasedList.items, templateBasedList.items)
    modifies platformBasedList.items, templateBasedList.items
    ensures fresh(changeset) && changeset.Valid()
    ensures var ts, ps := old(Snaps(templateBasedList.items)), old(Snaps(platformBasedList.items));
            var sound := UniqueKeys(ts) && old(AllInStep(templateBasedList.items) &&
                                               AllInStep(platformBasedList.items));
            if r.Success? then IsPlan(ts, ps, sound, upsertOnly, allowRecreate, preservePaths, plan) &&
                               changeset.added == plan.All()
            else SomeItemFails(ts, ps, sound, allowRecreate, preservePaths, r.error)
    ensures AllImmutablesPreserved(preservePaths) && r.Failure? ==> !r.error.Immutable?
  {
    hide *;
    changeset := new Changeset();
    ghost var ts, ps := Snaps(templateBasedList.items), Snaps(platformBasedList.items);
    ghost var sound := UniqueKeys(ts) && AllInStep(templateBasedList.items) && AllInStep(platformBasedList.items);
    ghost var deletions: seq<Change> := [];
    if !upsertOnly {
      AddDeletions(changeset, platformBasedList, templateBasedList);
      deletions := Deletions(ps, ts);
    }
    AddCreations(changeset, platformBasedList, templateBasedList);
    ghost var compared;
    r, compared := AddComparisons(changeset, platformBasedList, templateBasedList, allowRecreate, preservePaths);
    plan := Plan(deletions, Creations(ts, ps), compared);
    if r.Success? { Assembled(ts, ps, sound, upsertOnly, allowRecreate, preservePaths, plan); }
  }

  lemma Assembled(ts: seq<Snapshot>, ps: seq<Snapshot>, sound: bool, upsertOnly: bool, allowRecreate: bool,
                  arguments: seq<string>, plan: Plan)
    requires plan.deletions == (if upsertOnly then [] else Deletions(ps, ts)) && plan.creations == Creations(ts, ps)
    requires |plan.compared| == |ts|
    requires forall i :: 0 <= i < |ts| ==> PlansItem(ts, ps, sound, allowRecreate, arguments, i, plan.compared[i])
    ensures IsPlan(ts, ps, sound, upsertOnly, allowRecreate, arguments, plan)
    ensures plan.All() == [] + plan.deletions + plan.creations + Flatten(plan.compared)
  {
    hide PlansItem, Deletions, Creations, Flatten;
  }

  method AddDeletions(changeset: Changeset, platformBasedList: ResourceList, templateBasedList: ResourceList)
    requires changeset.Valid()
    modifies changeset
    ensures changeset.Valid()
    ensures changeset.added == old(changeset.added) +
                               Deletions(Snaps(platformBasedList.items), Snaps(templateBasedList.items))
  {
    hide Snaps, Deletions, Contains;
    var items := platformBasedList.items;
    ghost var ps, ts, before := Snaps(items), Snaps(templateBasedList.items), changeset.added;
    NoDeletions(ts);
    assert ps[..0] == [];
    for i := 0 to |items|
      invariant changeset.Valid() && changeset.added == before + Deletions(ps[..i], ts)
    {
      var item := items[i];
      DeletionsNext(ps, ts, i);
      var found := templateBasedList.GetItem(item.kind, item.name);
      if found == null {
        changeset.Add([Change(Action.Delete, item.kind, item.name, Yaml(item.config), NoState)]);
      }
    }
    assert ps[..|items|] == ps;
  }

  lemma NoDeletions(ts: seq<Snapshot>)
    ensures Deletions([], ts) == []
  {
  }

  lemma DeletionsNext(ps: seq<Snapshot>, ts: seq<Snapshot>, i: nat)
    requires i < |ps|
    ensures Deletions(ps[..i + 1], ts) ==
            Deletions(ps[..i], ts) + if IndexOf(ts, ps[i].kind, ps[i].name) == |ts| then [Deletion(ps[i])] else []
  {
    assert ps[..i + 1][..i] == ps[..i] && ps[..i + 1][i] == ps[i];
  }

  method AddCreations(changeset: Changeset, platformBasedList: ResourceList, templateBasedList: ResourceList)
    requires changeset.Valid()
    modifies changeset
    ensures changeset.Valid()
    ensures changeset.added == old(changeset.added) +
                               Creations(Snaps(templateBasedList.items), Snaps(platformBasedList.items))
  {
    hide Snaps, Creations, Contains;
    var items := templateBasedList.items;
    ghost var ts, ps, before := Snaps(items), Snaps(platformBasedList.items), changeset.added;
    NoCreations(ps);
    assert ts[..0] == [];
    for i := 0 to |items|
      invariant changeset.Valid() && changeset.added == before + Creations(ts[..i], ps)
    {
      var item := items[i];
      CreationsNext(ts, ps, i);
      var found := platformBasedList.GetItem(item.kind, item.name);
      if found == null {
        changeset.Add([Change(Create, item.kind, item.name, NoState, Yaml(item.config))]);
      }
    }
    assert ts[..|items|] == ts;
  }

  lemma NoCreations(ps: seq<Snapshot>)
    ensures Creations([], ps) == []
  {
  }

  lemma CreationsNext(ts: seq<Snapshot>, ps: seq<Snapshot>, i: nat)
    requires i < |ts|
    ensures Creations(ts[..i + 1], ps) ==
            Creations(ts[..i], ps) + if IndexOf(ps, ts[i].kind, ts[i].name) == |ps| then [Creation(ts[i])] else []
  {
    assert ts[..i + 1][..i] == ts[..i] && ts[..i + 1][i] == ts[i];
  }

  /** The options preserve every immutable field of every resource. */
  ghost predicate AllImmutablesPreserved(arguments: seq<string>) {
    forall kind, name :: ImmutablesPreserved(kind, PathsFor(kind, name, arguments))
  }

  method AddComparisons(changeset: Changeset, platformBasedList: ResourceList, templateBasedList: ResourceList,
                        allowRecreate: bool, preservePaths: seq<string>)
    returns (r: Result<(), Error>, ghost compared: seq<seq<Change>>)
    requires changeset.Valid() && Apart(platformBasedList.items, templateBasedList.items)
    modifies changeset, platformBasedList.items, templateBasedList.items
    ensures changeset.Valid()
    ensures var ts, ps := old(Snaps(templateBasedList.items)), old(Snaps(platformBasedList.items));
            var sound := UniqueKeys(ts) && old(AllInStep(templateBasedList.items) &&
                                               AllInStep(platformBasedList.items));
            if r.Success? then
              && |compared| == |ts|
              && (forall i :: 0 <= i < |ts| ==> PlansItem(ts, ps, sound, allowRecreate, preservePaths, i, compared[i]))
              && changeset.added == old(changeset.added) + Flatten(compared)
            else SomeItemFails(ts, ps, sound, allowRecreate, preservePaths, r.error)
    ensures AllImmutablesPreserved(preservePaths) && r.Failure? ==> !r.error.Immutable?
  {
    hide Snaps, PlansItem, FailsItem, UniqueKeys, AllImmutablesPreserved, Contains, Flatten, Changeset.Valid,
      ResourceItem.InStep, KindsKept, TemplatesPending, PlatformPending, AsListed, WellFormed, IndexOf, PathsFor;
    var tItems, pItems := templateBasedList.items, platformBasedList.items;
    ghost var ts, ps, before := Snaps(tItems), Snaps(pItems), changeset.added;
    ghost var inStep := AllInStep(tItems) && AllInStep(pItems);
    compared := [];
    NothingFlattened();
    NothingComparedYet(tItems, pItems);
    for i := 0 to |tItems|
      invariant changeset.Valid() && changeset.added == before + Flatten(compared)
      invariant |compared| == i
      invariant forall k :: 0 <= k < i ==>
                              PlansItem(ts, ps, UniqueKeys(ts) && inStep, allowRecreate, preservePaths, k, compared[k])
      invariant KindsKept(tItems, ts) && KindsKept(pItems, ps)
      invariant TemplatesPending(tItems, ts, inStep, i) && PlatformPending(pItems, ps, ts, inStep, i)
    {
      var changes: seq<Change>;
      r, changes := CompareOne(tItems, platformBasedList, i, allowRecreate, preservePaths, ts, ps, inStep);
      if r.Failure? {
        return;
      }
      changeset.Add(changes);
      FlattenNext(compared, changes);
      compared := compared + [changes];
    }
    r := Success(());
  }

  lemma NothingComparedYet(tItems: seq<ResourceItem>, pItems: seq<ResourceItem>)
    ensures var ts, ps, inStep := Snaps(tItems), Snaps(pItems), AllInStep(tItems) && AllInStep(pItems);
            && KindsKept(tItems, ts) && KindsKept(pItems, ps)
            && TemplatesPending(tItems, ts, inStep, 0) && PlatformPending(pItems, ps, ts, inStep, 0)
  {
    hide Snaps, Contains;
  }

  lemma NothingFlattened()
    ensures Flatten([]) == []
  {
  }

  lemma FlattenNext(parts: seq<seq<Change>>, last: seq<Change>)
    ensures Flatten(parts + [last]) == Flatten(parts) + last
  {
    assert (parts + [last])[..|parts|] == parts;
  }

  /** Compares one template resource with the platform resource of the same kind and name, if there is one. */
  method CompareOne(tItems: seq<ResourceItem>, platformBasedList: ResourceList, i: nat, allowRecreate: bool,
                    preservePaths: seq<string>, ghost ts: seq<Snapshot>, ghost ps: seq<Snapshot>, ghost inStep: bool)
    returns (r: Result<(), Error>, changes: seq<Change>)
    requires |tItems| == |ts| && |platformBasedList.items| == |ps| && i < |tItems|
    requires Apart(platformBasedList.items, tItems)
    requires KindsKept(tItems, ts) && KindsKept(platformBasedList.items, ps)
    requires TemplatesPending(tItems, ts, inStep, i) && PlatformPending(platformBasedList.items, ps, ts, inStep, i)
    modifies tItems[i], platformBasedList.items
    ensures KindsKept(tItems, ts) && KindsKept(platformBasedList.items, ps)
    ensures r.Success? ==>
              && TemplatesPending(tItems, ts, inStep, i + 1)
              && PlatformPending(platformBasedList.items, ps, ts, inStep, i + 1)
              && PlansItem(ts, ps, UniqueKeys(ts) && inStep, allowRecreate, preservePaths, i, changes)
    ensures r.Failure? ==> FailsItem(ts, ps, UniqueKeys(ts) && inStep, allowRecreate, preservePaths, i, r.error)
    ensures AllImmutablesPreserved(preservePaths) && r.Failure? ==> !r.error.Immutable?
  {
    hide Snaps, PlansItem, FailsItem, UniqueKeys, Contains, Correct, WellBehaved, TemplateDocument, PlatformDocument,
      PathsFor, ImmutablesPreserved, WellFormed, IndexOf, LoopsOutcome, ResourceItem.InStep, PlainAnnotations,
      PlainApiVersion, PreserveAll, ValidArgument, Preparable, NoPointers, NewChange;
    var templateItem, pItems := tItems[i], platformBasedList.items;
    var platformItem := platformBasedList.GetItem(templateItem.kind, templateItem.name);
    ghost var k := IndexOf(ps, templateItem.kind, templateItem.name);
    SameKeys(Snaps(pItems), ps, templateItem.kind, templateItem.name);
    forall s { ContainsNext(ts, i, s); }
    if platformItem == null {
      NothingToCompare(ts, ps, UniqueKeys(ts) && inStep, allowRecreate, preservePaths, i);
      return Success(()), [];
    }
    if UniqueKeys(ts) { NotDescribedBefore(ts, i, ps[k]); }
    r, changes := CompareFound(templateItem, platformItem, i, k, allowRecreate, preservePaths, ts, ps, inStep);
  }

  /** Compares a template resource with the platform resource that was found for it. */
  method CompareFound(templateItem: ResourceItem, platformItem: ResourceItem, ghost i: nat, ghost k: nat,
                      allowRecreate: bool, preservePaths: seq<string>, ghost ts: seq<Snapshot>, ghost ps: seq<Snapshot>,
                      ghost inStep: bool)
    returns (r: Result<(), Error>, changes: seq<Change>)
    requires templateItem != platformItem && i < |ts| && k == IndexOf(ps, ts[i].kind, ts[i].name) < |ps|
    requires templateItem.kind == ts[i].kind && templateItem.name == ts[i].name
    requires AsListed(templateItem, ts[i], inStep) && (UniqueKeys(ts) ==> AsListed(platformItem, ps[k], inStep))
    modifies templateItem`config, templateItem`paths, platformItem`config, platformItem`paths
    ensures r.Success? ==> PlansItem(ts, ps, UniqueKeys(ts) && inStep, allowRecreate, preservePaths, i, changes)
    ensures r.Failure? ==> FailsItem(ts, ps, UniqueKeys(ts) && inStep, allowRecreate, preservePaths, i, r.error)
    ensures AllImmutablesPreserved(preservePaths) && r.Failure? ==> !r.error.Immutable?
  {
    hide PlansItem, FailsItem, UniqueKeys, Compares, WellBehaved, TemplateDocument, PlatformDocument, PathsFor, Correct,
      ImmutablesPreserved, WellFormed, IndexOf, LoopsOutcome, ResourceItem.InStep, PlainAnnotations, PlainApiVersion,
      PreserveAll, ValidArgument, NoPointers, NewChange, ResultOf, Usable, PointersIn, CurrentIs;
    var actualPreservePaths := SelectPaths(templateItem.kind, templateItem.name, preservePaths);
    if actualPreservePaths.Failure? {
      InvalidArgument(ts, ps, UniqueKeys(ts) && inStep, allowRecreate, preservePaths, i, actualPreservePaths.error);
      return Failure(actualPreservePaths.error), [];
    }
    ghost var rs, t, p := actualPreservePaths.value, templateItem.Snap(), platformItem.Snap();
    ghost var sound := templateItem.InStep() && platformItem.InStep();
    var outcome := CalculateChanges(templateItem, platformItem, actualPreservePaths.value, allowRecreate);
    if sound { IsComparison(t, p, rs, allowRecreate, PointersIn(templateItem.paths), platformItem.paths, outcome); }
    if outcome.Failure? {
      FailedItem(ts, ps, UniqueKeys(ts) && inStep, allowRecreate, preservePaths, i, outcome.error);
      return Failure(outcome.error), [];
    }
    ComparedItem(ts, ps, UniqueKeys(ts) && inStep, allowRecreate, preservePaths, i, outcome.value);
    return Success(()), outcome.value;
  }

  lemma IsComparison(t: Snapshot, p: Snapshot, rs: seq<string>, allowRecreate: bool, tw: seq<string>, pw: seq<string>,
                     r: Outcome)
    requires WellBehaved(t, p, rs) ==>
               Correct(t.kind, t.name, TemplateDocument(t, p, rs), PlatformDocument(t, p), allowRecreate, r)
    requires PlainAnnotations(p.config) && PlainApiVersion(p.lastApplied) && r.Success? ==>
               CurrentIs(PlatformDocument(t, p), r.value)
    requires PlainAnnotations(p.config) && PlainApiVersion(p.lastApplied) && Usable(rs) ==>
               ResultOf(t, p, PointersIn(rs), allowRecreate, tw, pw, r)
    ensures Compares(t, p, rs, allowRecreate, r)
  {
    hide WellBehaved, Correct, PlainAnnotations, PlainApiVersion, Usable, ResultOf, PointersIn, TemplateDocument,
      PlatformDocument, CurrentIs;
  }

  lemma ContainsNext(ts: seq<Snapshot>, i: nat, s: Snapshot)
    requires i < |ts|
    ensures Contains(ts[..i + 1], s) <==> Contains(ts[..i], s) || Matches(ts[i], s.kind, s.name)
  {
    var a, b := ts[..i], ts[..i + 1];
    assert b == a + [ts[i]];
    if Contains(a, s) {
      assert Matches(b[IndexOf(a, s.kind, s.name)], s.kind, s.name);
    }
    assert b[i] == ts[i];
  }

  lemma NotDescribedBefore(ts: seq<Snapshot>, i: nat, s: Snapshot)
    requires UniqueKeys(ts) && i < |ts| && Matches(ts[i], s.kind, s.name)
    ensures !Contains(ts[..i], s)
  {
  }

  lemma NothingToCompare(ts: seq<Snapshot>, ps: seq<Snapshot>, sound: bool, allowRecreate: bool,
                         arguments: seq<string>, i: nat)
    requires i < |ts| && IndexOf(ps, ts[i].kind, ts[i].name) == |ps|
    ensures PlansItem(ts, ps, sound, allowRecreate, arguments, i, [])
  {
  }

  lemma ComparedItem(ts: seq<Snapshot>, ps: seq<Snapshot>, sound: bool, allowRecreate: bool, arguments: seq<string>,
                     i: nat,
                     changes: seq<Change>)
    requires i < |ts| && IndexOf(ps, ts[i].kind, ts[i].name) < |ps|
    requires WellFormed(ts[i].kind, ts[i].name, allowRecreate, changes)
    requires var rs, p := PathsFor(ts[i].kind, ts[i].name, arguments), ps[IndexOf(ps, ts[i].kind, ts[i].name)];
             && (ImmutablesPreserved(ts[i].kind, rs) ==> |changes| == 1)
             && (sound ==> Compares(ts[i], p, rs, allowRecreate, Success(changes)))
    ensures PlansItem(ts, ps, sound, allowRecreate, arguments, i, changes)
  {
  }

  lemma InvalidArgument(ts: seq<Snapshot>, ps: seq<Snapshot>, sound: bool, allowRecreate: bool,
                        arguments: seq<string>, i: nat,
                        error: Error)
    requires i < |ts| && IndexOf(ps, ts[i].kind, ts[i].name) < |ps|
    requires error.InvalidPreserve? && error.argument in arguments && !ValidArgument(error.argument)
    ensures FailsItem(ts, ps, sound, allowRecreate, arguments, i, error)
  {
  }

  lemma FailedItem(ts: seq<Snapshot>, ps: seq<Snapshot>, sound: bool, allowRecreate: bool, arguments: seq<string>,
                   i: nat,
                   error: Error)
    requires i < |ts| && IndexOf(ps, ts[i].kind, ts[i].name) < |ps| && !error.InvalidPreserve?
    requires var rs, p := PathsFor(ts[i].kind, ts[i].name, arguments), ps[IndexOf(ps, ts[i].kind, ts[i].name)];
             sound ==> Compares(ts[i], p, rs, allowRecreate, Failure(error))
    ensures FailsItem(ts, ps, sound, allowRecreate, arguments, i, error)
  {
  }

  lemma {:induction false} SameKeys(a: seq<Snapshot>, b: seq<Snapshot>, kind: string, name: string)
    requires |a| == |b| && forall j :: 0 <= j < |a| ==> a[j].kind == b[j].kind && a[j].name == b[j].name
    ensures IndexOf(a, kind, name) == IndexOf(b, kind, name)
  {
    FirstIndex(a, kind, name, IndexOf(b, kind, name));
  }
}
