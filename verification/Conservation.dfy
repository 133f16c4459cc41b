/** What every successful plan conserves: each described resource is accounted for exactly once, and
    nothing is deleted but what no template describes or what is recreated. */
module Conservation {
  import opened Documents
  import opened Platform
  import opened Items
  import opened Changes
  import opened Preserving
  import opened Changesets
  import opened Planning

  /** How many resources the changes leave in the cluster: the created, updated and unchanged ones. */
  function KeptCount(changes: seq<Change>): nat {
    |Of(Create, changes)| + |Of(Update, changes)| + |Of(Noop, changes)|
  }

  lemma KeptConcat(a: seq<Change>, b: seq<Change>)
    ensures KeptCount(a + b) == KeptCount(a) + KeptCount(b)
  {
    OfConcat(Create, a, b);
    OfConcat(Update, a, b);
    OfConcat(Noop, a, b);
  }

  lemma KeptOne(c: Change)
    ensures KeptCount([c]) == if c.action == Action.Delete then 0 else 1
  {
    assert [c] == [] + [c];
    OfNext(Create, [], c);
    OfNext(Update, [], c);
    OfNext(Noop, [], c);
  }

  lemma {:induction false} KeptDeletions(ps: seq<Snapshot>, ts: seq<Snapshot>)
    ensures KeptCount(Deletions(ps, ts)) == 0
  {
    if ps != [] {
      KeptDeletions(ps[..|ps| - 1], ts);
      KeptConcat(Deletions(ps[..|ps| - 1], ts), [Deletion(ps[|ps| - 1])]);
      KeptOne(Deletion(ps[|ps| - 1]));
    }
  }

  lemma {:induction false} KeptCreations(ts: seq<Snapshot>, ps: seq<Snapshot>)
    ensures KeptCount(Creations(ts, ps)) == |Creations(ts, ps)|
  {
    if ts != [] {
      KeptCreations(ts[..|ts| - 1], ps);
      KeptConcat(Creations(ts[..|ts| - 1], ps), [Creation(ts[|ts| - 1])]);
      KeptOne(Creation(ts[|ts| - 1]));
    }
  }

  lemma KeptCompared(kind: string, name: string, allowRecreate: bool, changes: seq<Change>)
    requires WellFormed(kind, name, allowRecreate, changes)
    ensures KeptCount(changes) == 1
  {
    if |changes| == 1 {
      assert changes == [changes[0]];
      KeptOne(changes[0]);
    } else {
      assert changes == [changes[0]] + [changes[1]];
      KeptConcat([changes[0]], [changes[1]]);
      KeptOne(changes[0]);
      KeptOne(changes[1]);
    }
  }

  /** The creations and the comparisons of the first n templates account for n resources. */
  lemma {:induction false} KeptUpTo(ts: seq<Snapshot>, ps: seq<Snapshot>, sound: bool, allowRecreate: bool,
                                    arguments: seq<string>, compared: seq<seq<Change>>, n: nat)
    requires n <= |ts| == |compared|
    requires forall i :: 0 <= i < |ts| ==> PlansItem(ts, ps, sound, allowRecreate, arguments, i, compared[i])
    ensures KeptCount(Creations(ts[..n], ps)) + KeptCount(Flatten(compared[..n])) == n
  {
    hide KeptCount, PlansItem, Creations, Flatten;
    NoCreations(ps);
    NothingFlattened();
    if n == 0 {
      assert ts[..0] == [] && compared[..0] == [];
      KeptNothing();
    } else {
      KeptUpTo(ts, ps, sound, allowRecreate, arguments, compared, n - 1);
      CreationsNext(ts, ps, n - 1);
      assert compared[..n] == compared[..n - 1] + [compared[n - 1]];
      FlattenNext(compared[..n - 1], compared[n - 1]);
      KeptConcat(Flatten(compared[..n - 1]), compared[n - 1]);
      KeptNext(ts, ps, sound, allowRecreate, arguments, n - 1, compared[n - 1]);
    }
  }

  lemma KeptNothing()
    ensures KeptCount([]) == 0
  {
  }

  lemma KeptNext(ts: seq<Snapshot>, ps: seq<Snapshot>, sound: bool, allowRecreate: bool, arguments: seq<string>, i: nat,
                 changes: seq<Change>)
    requires i < |ts| && PlansItem(ts, ps, sound, allowRecreate, arguments, i, changes)
    ensures KeptCount(Creations(ts[..i], ps) + if IndexOf(ps, ts[i].kind, ts[i].name) == |ps| then [Creation(ts[i])]
                      else [])
            + KeptCount(changes) == KeptCount(Creations(ts[..i], ps)) + 1
  {
    hide KeptCount, Creations, Correct, WellBehaved, ImmutablesPreserved;
    KeptNothing();
    if IndexOf(ps, ts[i].kind, ts[i].name) == |ps| {
      KeptConcat(Creations(ts[..i], ps), [Creation(ts[i])]);
      KeptOne(Creation(ts[i]));
    } else {
      assert Creations(ts[..i], ps) + [] == Creations(ts[..i], ps);
      KeptCompared(ts[i].kind, ts[i].name, allowRecreate, changes);
    }
  }

  /** Created, updated and unchanged resources together are as many as the templates describe. */
  lemma EveryTemplateIsAccountedFor(ts: seq<Snapshot>, ps: seq<Snapshot>, sound: bool, upsertOnly: bool,
                                    allowRecreate: bool, arguments: seq<string>, plan: Plan)
    requires IsPlan(ts, ps, sound, upsertOnly, allowRecreate, arguments, plan)
    ensures |Of(Create, plan.All())| + |Of(Update, plan.All())| + |Of(Noop, plan.All())| == |ts|
  {
    hide PlansItem, Of;
    KeptUpTo(ts, ps, sound, allowRecreate, arguments, plan.compared, |ts|);
    assert ts[..|ts|] == ts && plan.compared[..|ts|] == plan.compared;
    KeptDeletions(ps, ts);
    KeptNothing();
    KeptConcat(plan.deletions + plan.creations, Flatten(plan.compared));
    KeptConcat(plan.deletions, plan.creations);
  }

  // ---- what is deleted ----

  lemma {:induction false} OfMeaning(action: Action, changes: seq<Change>, c: Change)
    ensures c in Of(action, changes) <==> c in changes && c.action == action
  {
    if changes != [] {
      OfMeaning(action, changes[..|changes| - 1], c);
      assert changes == changes[..|changes| - 1] + [changes[|changes| - 1]];
    }
  }

  lemma {:induction false} DeletionsMeaning(ps: seq<Snapshot>, ts: seq<Snapshot>, c: Change)
    ensures c in Deletions(ps, ts) <==> exists j :: 0 <= j < |ps| && !Contains(ts, ps[j]) && c == Deletion(ps[j])
  {
    hide Contains;
    if ps != [] {
      DeletionsMeaning(ps[..|ps| - 1], ts, c);
      assert ps == ps[..|ps| - 1] + [ps[|ps| - 1]];
    }
  }

  lemma {:induction false} CreationsMeaning(ts: seq<Snapshot>, ps: seq<Snapshot>, c: Change)
    ensures c in Creations(ts, ps) <==> exists i :: 0 <= i < |ts| && !Contains(ps, ts[i]) && c == Creation(ts[i])
  {
    hide Contains;
    if ts != [] {
      CreationsMeaning(ts[..|ts| - 1], ps, c);
      assert ts == ts[..|ts| - 1] + [ts[|ts| - 1]];
    }
  }

  lemma {:induction false} FlattenMeaning(parts: seq<seq<Change>>, c: Change)
    ensures c in Flatten(parts) <==> exists i :: 0 <= i < |parts| && c in parts[i]
  {
    if parts != [] {
      FlattenMeaning(parts[..|parts| - 1], c);
      assert parts == parts[..|parts| - 1] + [parts[|parts| - 1]];
    }
  }

  /** No resource of the list has this kind and name. */
  ghost predicate Unknown(list: seq<Snapshot>, kind: string, name: string) {
    forall i :: 0 <= i < |list| ==> !(list[i].kind == kind && list[i].name == name)
  }

  lemma ContainsMeans(list: seq<Snapshot>, s: Snapshot)
    ensures Contains(list, s) <==> !Unknown(list, s.kind, s.name)
  {
    if !Unknown(list, s.kind, s.name) {
      var i :| 0 <= i < |list| && list[i].kind == s.kind && list[i].name == s.name;
      assert Matches(list[i], s.kind, s.name);
    } else {
      FirstIndex(list, s.kind, s.name, |list|);
    }
  }

  /** The listed resources that no template describes, by index. */
  ghost function Undescribed(ps: seq<Snapshot>, ts: seq<Snapshot>): set<int> {
    set j | 0 <= j < |ps| && Unknown(ts, ps[j].kind, ps[j].name)
  }

  lemma {:induction false} DeletionsCount(ps: seq<Snapshot>, ts: seq<Snapshot>)
    ensures |Deletions(ps, ts)| == |Undescribed(ps, ts)|
  {
    hide Contains, Unknown;
    if ps == [] {
      assert Undescribed(ps, ts) == {};
    } else {
      var n := |ps| - 1;
      DeletionsCount(ps[..n], ts);
      ContainsMeans(ts, ps[n]);
      var last := if Unknown(ts, ps[n].kind, ps[n].name) then {n} else {};
      forall j ensures j in Undescribed(ps, ts) <==> j in Undescribed(ps[..n], ts) + last {
        assert 0 <= j < n ==> ps[..n][j] == ps[j];
      }
      assert Undescribed(ps, ts) == Undescribed(ps[..n], ts) + last;
    }
  }

  /** Unless only upserting, a plan deletes exactly the listed resources that no template describes, each once: the
      document that the platform lists is the current state, and nothing is desired. */
  lemma PlannedDeletions(ts: seq<Snapshot>, ps: seq<Snapshot>, sound: bool, upsertOnly: bool, allowRecreate: bool,
                         arguments: seq<string>, plan: Plan, c: Change)
    requires IsPlan(ts, ps, sound, upsertOnly, allowRecreate, arguments, plan)
    ensures c in plan.deletions <==>
            && !upsertOnly && c.action == Action.Delete && c.desired == NoState
            && exists j :: 0 <= j < |ps| && c.kind == ps[j].kind && c.name == ps[j].name &&
                           c.current == Yaml(ps[j].config) && Unknown(ts, ps[j].kind, ps[j].name)
    ensures |plan.deletions| == if upsertOnly then 0 else |Undescribed(ps, ts)|
  {
    hide Contains, Creations, Deletions, PlansItem, Unknown;
    DeletionsCount(ps, ts);
    DeletionsMeaning(ps, ts, c);
    forall j | 0 <= j < |ps| ensures Contains(ts, ps[j]) <==> !Unknown(ts, ps[j].kind, ps[j].name) {
      ContainsMeans(ts, ps[j]);
    }
  }

  /** And it creates exactly the described resources that the platform lacks: there is no current state, and the
      template's document is desired. */
  lemma PlannedCreations(ts: seq<Snapshot>, ps: seq<Snapshot>, sound: bool, upsertOnly: bool, allowRecreate: bool,
                         arguments: seq<string>, plan: Plan, c: Change)
    requires IsPlan(ts, ps, sound, upsertOnly, allowRecreate, arguments, plan)
    ensures c in plan.creations <==>
            && c.action == Create && c.current == NoState
            && exists i :: 0 <= i < |ts| && c.kind == ts[i].kind && c.name == ts[i].name &&
                           c.desired == Yaml(ts[i].config) && Unknown(ps, ts[i].kind, ts[i].name)
  {
    hide Contains, Creations, Deletions, PlansItem, Unknown;
    CreationsMeaning(ts, ps, c);
    forall i | 0 <= i < |ts| ensures Contains(ps, ts[i]) <==> !Unknown(ps, ts[i].kind, ts[i].name) {
      ContainsMeans(ps, ts[i]);
    }
  }

  /** What a plan reports about a resource that both sides have: deletions, updates and unchanged resources start from
      the prepared document of the platform, creations from nothing. */
  lemma PlannedCurrentStates(ts: seq<Snapshot>, ps: seq<Snapshot>, upsertOnly: bool, allowRecreate: bool,
                             arguments: seq<string>, plan: Plan, i: nat, k: nat, c: Change)
    requires IsPlan(ts, ps, true, upsertOnly, allowRecreate, arguments, plan)
    requires i < |ts| && k == IndexOf(ps, ts[i].kind, ts[i].name) < |ps| && c in plan.compared[i]
    requires PlainAnnotations(ps[k].config) && PlainApiVersion(ps[k].lastApplied)
    ensures c.kind == ts[i].kind && c.name == ts[i].name
    ensures c.action == Create ==> c.current == NoState && c.desired.Yaml?
    ensures c.action == Action.Delete ==> c.current == Yaml(PlatformDocument(ts[i], ps[k])) && c.desired == NoState
    ensures c.action == Update ==> c.current == Yaml(PlatformDocument(ts[i], ps[k])) != c.desired
    ensures c.action == Noop ==> c.current == Yaml(PlatformDocument(ts[i], ps[k])) == c.desired
  {
    hide PlansItem, IndexOf, WellFormed, CurrentIs, PlatformDocument, PlainAnnotations, PlainApiVersion, Deletions,
      Creations;
    assert PlansItem(ts, ps, true, allowRecreate, arguments, i, plan.compared[i]);
    ComparedStates(ts, ps, allowRecreate, arguments, i, k, plan.compared[i]);
    StatesOfOne(ts[i].kind, ts[i].name, allowRecreate, PlatformDocument(ts[i], ps[k]), plan.compared[i], c);
  }

  lemma ComparedStates(ts: seq<Snapshot>, ps: seq<Snapshot>, allowRecreate: bool, arguments: seq<string>, i: nat,
                       k: nat, changes: seq<Change>)
    requires i < |ts| && k == IndexOf(ps, ts[i].kind, ts[i].name) < |ps|
    requires PlansItem(ts, ps, true, allowRecreate, arguments, i, changes)
    requires PlainAnnotations(ps[k].config) && PlainApiVersion(ps[k].lastApplied)
    ensures WellFormed(ts[i].kind, ts[i].name, allowRecreate, changes)
    ensures CurrentIs(PlatformDocument(ts[i], ps[k]), changes)
  {
    hide IndexOf, WellFormed, CurrentIs, Correct, WellBehaved, ImmutablesPreserved, PathsFor, TemplateDocument,
      PlatformDocument, PlainAnnotations, PlainApiVersion, ResultOf;
  }

  lemma StatesOfOne(kind: string, name: string, allowRecreate: bool, p: Json, changes: seq<Change>, c: Change)
    requires WellFormed(kind, name, allowRecreate, changes) && CurrentIs(p, changes) && c in changes
    ensures c.kind == kind && c.name == name
    ensures c.action == Create ==> c.current == NoState && c.desired.Yaml?
    ensures c.action == Action.Delete ==> c.current == Yaml(p) && c.desired == NoState
    ensures c.action == Update ==> c.current == Yaml(p) != c.desired
    ensures c.action == Noop ==> c.current == Yaml(p) == c.desired
  {
  }

  /** The i-th template's resource is recreated. */
  predicate Recreates(plan: Plan, i: nat)
    requires i < |plan.compared|
  {
    |plan.compared[i]| == 2
  }

  /** A change deletes a resource exactly when it is the deletion of a platform resource that no template
      describes, unless only upserting, or the first half of a recreation. */
  lemma WhatIsDeleted(ts: seq<Snapshot>, ps: seq<Snapshot>, sound: bool, upsertOnly: bool, allowRecreate: bool,
                      arguments: seq<string>, plan: Plan, c: Change)
    requires IsPlan(ts, ps, sound, upsertOnly, allowRecreate, arguments, plan)
    ensures c in Of(Action.Delete, plan.All()) <==>
            || (!upsertOnly && exists j :: 0 <= j < |ps| && !Contains(ts, ps[j]) && c == Deletion(ps[j]))
            || (exists i :: 0 <= i < |ts| && Recreates(plan, i) && c == plan.compared[i][0])
  {
    hide Of, Contains, Deletions, Creations, Flatten, PlansItem;
    OfMeaning(Action.Delete, plan.All(), c);
    DeletionsMeaning(ps, ts, c);
    CreationsMeaning(ts, ps, c);
    FlattenMeaning(plan.compared, c);
    forall i | 0 <= i < |ts|
      ensures c in plan.compared[i] && c.action == Action.Delete <==> Recreates(plan, i) && c == plan.compared[i][0]
    {
      assert PlansItem(ts, ps, sound, allowRecreate, arguments, i, plan.compared[i]);
      DeletedByComparison(ts, ps, sound, allowRecreate, arguments, i, plan.compared[i], c);
    }
  }

  lemma DeletedByComparison(ts: seq<Snapshot>, ps: seq<Snapshot>, sound: bool, allowRecreate: bool,
                            arguments: seq<string>,
                            i: nat, changes: seq<Change>, c: Change)
    requires i < |ts| && PlansItem(ts, ps, sound, allowRecreate, arguments, i, changes)
    ensures c in changes && c.action == Action.Delete <==> |changes| == 2 && c == changes[0]
    ensures |changes| == 2 ==> allowRecreate && DeletesAndCreates(ts[i].kind, ts[i].name, changes)
  {
    hide Correct, WellBehaved, ImmutablesPreserved;
  }

  /** Without permission to recreate, no described resource is deleted. */
  lemma DescribedResourcesStay(ts: seq<Snapshot>, ps: seq<Snapshot>, sound: bool, upsertOnly: bool,
                               arguments: seq<string>,
                               plan: Plan, c: Change, i: nat)
    requires IsPlan(ts, ps, sound, upsertOnly, false, arguments, plan)
    requires c in Of(Action.Delete, plan.All()) && i < |ts|
    ensures !(c.kind == ts[i].kind && c.name == ts[i].name)
  {
    hide Of, Deletions, Creations, Flatten, PlansItem;
    WhatIsDeleted(ts, ps, sound, upsertOnly, false, arguments, plan, c);
    forall k | 0 <= k < |ts| ensures !Recreates(plan, k) {
      assert PlansItem(ts, ps, sound, false, arguments, k, plan.compared[k]);
      DeletedByComparison(ts, ps, sound, false, arguments, k, plan.compared[k], c);
    }
    var j :| 0 <= j < |ps| && !Contains(ts, ps[j]) && c == Deletion(ps[j]);
  }

  /** A recreated resource is both deleted and created. */
  lemma RecreatedResourcesReturn(ts: seq<Snapshot>, ps: seq<Snapshot>, sound: bool, upsertOnly: bool,
                                 allowRecreate: bool,
                                 arguments: seq<string>, plan: Plan, i: nat)
    requires IsPlan(ts, ps, sound, upsertOnly, allowRecreate, arguments, plan)
    requires i < |ts| && Recreates(plan, i)
    ensures plan.compared[i][0] in Of(Action.Delete, plan.All()) && plan.compared[i][1] in Of(Create, plan.All())
    ensures forall c :: c in plan.compared[i] ==> c.kind == ts[i].kind && c.name == ts[i].name
  {
    hide Of, Deletions, Creations, Flatten, PlansItem;
    assert PlansItem(ts, ps, sound, allowRecreate, arguments, i, plan.compared[i]);
    DeletedByComparison(ts, ps, sound, allowRecreate, arguments, i, plan.compared[i], plan.compared[i][0]);
    WhatIsDeleted(ts, ps, sound, upsertOnly, allowRecreate, arguments, plan, plan.compared[i][0]);
    OfMeaning(Create, plan.All(), plan.compared[i][1]);
    FlattenMeaning(plan.compared, plan.compared[i][1]);
  }

  /** With preserve-immutable-fields, whatever else is preserved, all immutable fields are preserved; by the
      contract of NewChangeset no run then fails for an immutable field. */
  lemma AllImmutablesCovered(preservePaths: seq<string>)
    ensures AllImmutablesPreserved(PathsToPreserve(true, preservePaths))
  {
    hide ImmutablesPreserved, PathsFor, PathsToPreserve;
    forall kind, name ensures ImmutablesPreserved(kind, PathsFor(kind, name, PathsToPreserve(true, preservePaths))) {
      ImmutableArgumentsCover(kind, name, preservePaths);
    }
  }

  /** Nor does any plan recreate a resource then. */
  lemma PreservingNeverRecreates(ts: seq<Snapshot>, ps: seq<Snapshot>, sound: bool, upsertOnly: bool,
                                 allowRecreate: bool,
                                 preservePaths: seq<string>, plan: Plan, i: nat)
    requires IsPlan(ts, ps, sound, upsertOnly, allowRecreate, PathsToPreserve(true, preservePaths), plan)
    requires i < |ts|
    ensures i < |plan.compared| && !Recreates(plan, i)
  {
    hide Correct, WellBehaved, ImmutablesPreserved, PathsFor, WellFormed, TemplateDocument, PlatformDocument,
      PathsToPreserve;
    AllImmutablesCovered(preservePaths);
    assert PlansItem(ts, ps, sound, allowRecreate, PathsToPreserve(true, preservePaths), i, plan.compared[i]);
  }
}
