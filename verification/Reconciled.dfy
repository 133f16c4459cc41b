/** Executing a whole plan on the idealised cluster brings it in sync with the templates. */
module Reconciled {
  import opened Wrappers
  import opened Documents
  import opened Managed
  import opened Preparing
  import opened Pointers
  import opened Items
  import opened Changes
  import opened Convergence
  import opened Preserving
  import opened Changesets
  import opened Planning
  import opened Conservation
  import opened Cluster

  function CallFor(c: Change): Call {
    if c.action == Action.Delete ||
       !c.desired.Yaml? then DeleteCall(Key(c.kind, c.name)) else ApplyCall(c.desired.config)
  }

  function CallsFor(changes: seq<Change>): (calls: seq<Call>)
    ensures |calls| == |changes|
    ensures forall i :: 0 <= i < |changes| ==> calls[i] == CallFor(changes[i])
  {
    seq(|changes|, i requires 0 <= i < |changes| => CallFor(changes[i]))
  }

  /** Every described resource is there with nothing to do for it and, unless only upserting, no other one
      is there. */
  ghost predicate InSyncWith(ts: seq<Snapshot>, cluster: Cluster.State, upsertOnly: bool, arguments: seq<string>) {
    && (forall i :: 0 <= i < |ts| ==> KeyIn(ts[i]) in cluster && SettledAt(ts[i], cluster, arguments))
    && (!upsertOnly ==> forall k :: k in cluster ==> Described(ts, k))
  }

  predicate Described(ts: seq<Snapshot>, k: Key) {
    exists i :: 0 <= i < |ts| && KeyIn(ts[i]) == k
  }

  function ArgumentsFor(t: Snapshot, arguments: seq<string>): seq<string> {
    PathsFor(t.kind, t.name, arguments)
  }

  ghost predicate SettledAt(t: Snapshot, cluster: Cluster.State, arguments: seq<string>) {
    forall p :: KeyIn(p) == KeyIn(t) && RepresentsEntry(p, cluster) ==> NothingToDo(t, p, ArgumentsFor(t, arguments))
  }

  /** The situation which the convergence theorems are about: distinct templates and resources of the
      modelled form, each pair of which behaves well. */
  ghost predicate Manageable(ts: seq<Snapshot>, ps: seq<Snapshot>, arguments: seq<string>) {
    && UniqueKeys(ts)
    && (forall i :: 0 <= i < |ts| ==> ProperDescription(ts[i], ArgumentsFor(ts[i], arguments)))
    && (forall j :: 0 <= j < |ps| ==> ProperResource(ps[j]))
    && (forall i, j :: 0 <= i < |ts| && 0 <= j < |ps| && KeyIn(ts[i]) == KeyIn(ps[j]) ==>
                         WellBehaved(ts[i], ps[j], ArgumentsFor(ts[i], arguments)))
  }

  // ---- where changes come from ----

  /** What a plan has in store for one described resource. */
  ghost predicate ChangeOf(ts: seq<Snapshot>, ps: seq<Snapshot>, plan: Plan, i: nat, c: Change)
    requires i < |ts| == |plan.compared|
  {
    (IndexOf(ps, ts[i].kind, ts[i].name) == |ps| && c == Creation(ts[i])) ||
    (IndexOf(ps, ts[i].kind, ts[i].name) < |ps| && c in plan.compared[i] && c.action != Action.Delete)
  }

  lemma ChangeOrigin(ts: seq<Snapshot>, ps: seq<Snapshot>, sound: bool, upsertOnly: bool, allowRecreate: bool,
                     arguments: seq<string>, plan: Plan, c: Change)
    requires IsPlan(ts, ps, sound, upsertOnly, allowRecreate, arguments, plan)
    ensures c in plan.All() && c.action != Action.Delete <==> exists i :: 0 <= i < |ts| && ChangeOf(ts, ps, plan, i, c)
  {
    hide Deletions, Creations, Flatten, PlansItem;
    DeletionsMeaning(ps, ts, c);
    CreationsMeaning(ts, ps, c);
    FlattenMeaning(plan.compared, c);
    forall i | 0 <= i < |ts|
      ensures c in plan.compared[i] ==> IndexOf(ps, ts[i].kind, ts[i].name) < |ps|
    {
      assert PlansItem(ts, ps, sound, allowRecreate, arguments, i, plan.compared[i]);
      NothingComparedIfMissing(ts, ps, sound, allowRecreate, arguments, i, plan.compared[i]);
    }
    if i :| 0 <= i < |ts| && ChangeOf(ts, ps, plan, i, c) {
      if IndexOf(ps, ts[i].kind, ts[i].name) == |ps| {
        assert !Contains(ps, ts[i]) && c == Creation(ts[i]);
        assert c in Creations(ts, ps);
      } else {
        assert c in plan.compared[i];
      }
    }
    if c in Creations(ts, ps) {
      var i :| 0 <= i < |ts| && !Contains(ps, ts[i]) && c == Creation(ts[i]);
      assert ChangeOf(ts, ps, plan, i, c);
    }
    if i :| 0 <= i < |ts| && c in plan.compared[i] && c.action != Action.Delete {
      assert ChangeOf(ts, ps, plan, i, c);
    }
  }

  lemma NothingComparedIfMissing(ts: seq<Snapshot>, ps: seq<Snapshot>, sound: bool, allowRecreate: bool,
                                 arguments: seq<string>, i: nat, changes: seq<Change>)
    requires i < |ts| && PlansItem(ts, ps, sound, allowRecreate, arguments, i, changes)
    ensures IndexOf(ps, ts[i].kind, ts[i].name) == |ps| ==> changes == []
  {
  }

  /** A creation or update in the plan carries a good document for the resource it is for. */
  lemma ChangeIsGoodFor(ts: seq<Snapshot>, ps: seq<Snapshot>, upsertOnly: bool, allowRecreate: bool,
                        arguments: seq<string>, plan: Plan, i: nat, c: Change)
    requires Manageable(ts, ps, arguments) && IsPlan(ts, ps, true, upsertOnly, allowRecreate, arguments, plan)
    requires i < |ts| && ChangeOf(ts, ps, plan, i, c) && c.action != Noop
    ensures c.desired.Yaml? && GoodDocument(ts[i], ArgumentsFor(ts[i], arguments), c.desired.config)
  {
    hide WellBehaved, Correct, ProperDescription, ProperResource, GoodDocument, PathsFor, ImmutablesPreserved,
      UniqueKeys, TemplateDocument, PlatformDocument;
    var t, rs, k := ts[i], ArgumentsFor(ts[i], arguments), IndexOf(ps, ts[i].kind, ts[i].name);
    assert PlansItem(ts, ps, true, allowRecreate, arguments, i, plan.compared[i]);
    if k == |ps| {
      CreationIsGood(t, rs);
    } else {
      var changes := plan.compared[i];
      assert KeyIn(ps[k]) == KeyIn(t);
      assert WellBehaved(t, ps[k], rs);
      assert c == changes[|changes| - 1];
      ChangeIsGood(t, ps[k], rs, allowRecreate, Success(changes), c.desired.config);
    }
  }

  // ---- the executed plan ----

  /** The three lists hold the deletions, creations and updates of the plan. */
  ghost predicate Executes(plan: Plan, deletes: seq<Change>, creates: seq<Change>, updates: seq<Change>) {
    && (forall c :: c in deletes <==> c in Of(Action.Delete, plan.All()))
    && (forall c :: c in creates <==> c in Of(Create, plan.All()))
    && (forall c :: c in updates <==> c in Of(Update, plan.All()))
  }

  function PlannedCalls(deletes: seq<Change>, creates: seq<Change>, updates: seq<Change>): seq<Call> {
    CallsFor(deletes) + CallsFor(creates) + CallsFor(updates)
  }

  /** The calls that apply something are those of the creations and updates. */
  lemma AppliedCalls(ts: seq<Snapshot>, ps: seq<Snapshot>, upsertOnly: bool, allowRecreate: bool,
                     arguments: seq<string>,
                     plan: Plan, creates: seq<Change>, updates: seq<Change>, deletes: seq<Change>, call: Call)
    requires Manageable(ts, ps, arguments) && IsPlan(ts, ps, true, upsertOnly, allowRecreate, arguments, plan)
    requires |ts| == |plan.compared|
    requires Executes(plan, deletes, creates, updates)
    ensures call in CallsFor(creates) + CallsFor(updates) <==>
            exists i, c :: 0 <= i < |ts| && ChangeOf(ts, ps, plan, i, c) && c.action != Noop && call == CallFor(c)
    ensures call in CallsFor(creates) + CallsFor(updates) ==> call.ApplyCall?
  {
    hide Of, ChangeOf, Manageable, IsPlan, GoodDocument, CallFor;
    if call in CallsFor(creates) + CallsFor(updates) {
      var c := ChangeBehind(creates, updates, call);
      OfMeaning(Create, plan.All(), c);
      OfMeaning(Update, plan.All(), c);
      ChangeOrigin(ts, ps, true, upsertOnly, allowRecreate, arguments, plan, c);
      var i :| 0 <= i < |ts| && ChangeOf(ts, ps, plan, i, c);
      ChangeIsGoodFor(ts, ps, upsertOnly, allowRecreate, arguments, plan, i, c);
      AppliesYaml(c);
    }
    if i, c :| 0 <= i < |ts| && ChangeOf(ts, ps, plan, i, c) && c.action != Noop && call == CallFor(c) {
      ChangeOrigin(ts, ps, true, upsertOnly, allowRecreate, arguments, plan, c);
      OfMeaning(Create, plan.All(), c);
      OfMeaning(Update, plan.All(), c);
      assert c in creates || c in updates;
      CallOfMember(creates, c);
      CallOfMember(updates, c);
    }
  }

  lemma ChangeBehind(creates: seq<Change>, updates: seq<Change>, call: Call) returns (c: Change)
    requires call in CallsFor(creates) + CallsFor(updates)
    ensures (c in creates || c in updates) && call == CallFor(c)
  {
    if call in CallsFor(creates) {
      var i :| 0 <= i < |creates| && CallsFor(creates)[i] == call;
      c := creates[i];
    } else {
      var i :| 0 <= i < |updates| && CallsFor(updates)[i] == call;
      c := updates[i];
    }
  }

  lemma CallOfMember(changes: seq<Change>, c: Change)
    ensures c in changes ==> CallFor(c) in CallsFor(changes)
  {
    if c in changes {
      var i :| 0 <= i < |changes| && changes[i] == c;
      assert CallsFor(changes)[i] == CallFor(c);
    }
  }

  lemma AppliesYaml(c: Change)
    requires c.action != Action.Delete && c.desired.Yaml?
    ensures CallFor(c) == ApplyCall(c.desired.config)
  {
  }

  /** The deleting calls are about undescribed resources and recreated ones. */
  lemma DeletingCalls(ts: seq<Snapshot>, ps: seq<Snapshot>, upsertOnly: bool, allowRecreate: bool,
                      arguments: seq<string>,
                      plan: Plan, deletes: seq<Change>, call: Call)
    requires IsPlan(ts, ps, true, upsertOnly, allowRecreate, arguments, plan) && |ts| == |plan.compared|
    requires forall c :: c in deletes <==> c in Of(Action.Delete, plan.All())
    ensures call in CallsFor(deletes) <==>
            || (!upsertOnly && exists j :: 0 <= j < |ps| && !Contains(ts, ps[j]) && call == DeleteCall(KeyIn(ps[j])))
            || (exists i :: 0 <= i < |ts| && Recreates(plan, i) && call == DeleteCall(KeyIn(ts[i])))
  {
    hide Of, IsPlan, Contains, PlansItem;
    if call in CallsFor(deletes) {
      var k :| 0 <= k < |deletes| && CallsFor(deletes)[k] == call;
      var c := deletes[k];
      OfMeaning(Action.Delete, plan.All(), c);
      WhatIsDeleted(ts, ps, true, upsertOnly, allowRecreate, arguments, plan, c);
      if i :| 0 <= i < |ts| && Recreates(plan, i) && plan.compared[i][0] == c {
        RecreatedResourcesReturn(ts, ps, true, upsertOnly, allowRecreate, arguments, plan, i);
      }
    }
    if j :| !upsertOnly && 0 <= j < |ps| && !Contains(ts, ps[j]) && call == DeleteCall(KeyIn(ps[j])) {
      WhatIsDeleted(ts, ps, true, upsertOnly, allowRecreate, arguments, plan, Deletion(ps[j]));
      CallOfMember(deletes, Deletion(ps[j]));
    }
    if i :| 0 <= i < |ts| && Recreates(plan, i) && call == DeleteCall(KeyIn(ts[i])) {
      RecreatedResourcesReturn(ts, ps, true, upsertOnly, allowRecreate, arguments, plan, i);
      OfMeaning(Action.Delete, plan.All(), plan.compared[i][0]);
      CallOfMember(deletes, plan.compared[i][0]);
    }
  }

  /** What the plan's calls make of a resource that nothing is applied to: it stays unless it is deleted. */
  lemma Untouched(cluster: Cluster.State, deletes: seq<Change>, creates: seq<Change>, updates: seq<Change>,
                  n: nat, stores: Storing, k: Key)
    requires forall c :: c in CallsFor(deletes) ==> c.DeleteCall?
    requires forall c :: c in CallsFor(creates) + CallsFor(updates) ==> c.ApplyCall? && !AppliesTo(c, k)
    ensures var after := Run(cluster, PlannedCalls(deletes, creates, updates), n, stores);
            && (k in after <==> k in cluster && DeleteCall(k) !in CallsFor(deletes))
            && (k in after ==> after[k] == cluster[k])
  {
    hide Run, CallsFor, KeyOf, AppliesTo;
    var applied := CallsFor(creates) + CallsFor(updates);
    assert PlannedCalls(deletes, creates, updates) == CallsFor(deletes) + applied;
    RunConcat(cluster, CallsFor(deletes), applied, n, stores);
    RunDeletions(cluster, CallsFor(deletes), n, stores);
    RunApplications(Run(cluster, CallsFor(deletes), n, stores), applied, n + |deletes|, stores, k);
  }

  /** A resource that something is applied to is what the server stored for one of the applications. */
  lemma Touched(cluster: Cluster.State, deletes: seq<Change>, creates: seq<Change>, updates: seq<Change>,
                n: nat, stores: Storing, k: Key)
    requires forall c :: c in CallsFor(creates) + CallsFor(updates) ==> c.ApplyCall?
    requires exists c :: c in CallsFor(creates) + CallsFor(updates) && AppliesTo(c, k)
    ensures var after := Run(cluster, PlannedCalls(deletes, creates, updates), n, stores);
            k in after && StoredFor(CallsFor(creates) + CallsFor(updates), k, after[k], stores)
  {
    hide Run, CallsFor, KeyOf, AppliesTo, StoredFor;
    var applied := CallsFor(creates) + CallsFor(updates);
    assert PlannedCalls(deletes, creates, updates) == CallsFor(deletes) + applied;
    RunConcat(cluster, CallsFor(deletes), applied, n, stores);
    RunApplications(Run(cluster, CallsFor(deletes), n, stores), applied, n + |deletes|, stores, k);
  }

  /** The plan was made for this cluster, and the three lists hold what it deletes, creates and updates. */
  ghost predicate PlanFor(ts: seq<Snapshot>, ps: seq<Snapshot>, cluster: Cluster.State, upsertOnly: bool,
                          allowRecreate: bool, arguments: seq<string>, plan: Plan, deletes: seq<Change>,
                          creates: seq<Change>, updates: seq<Change>) {
    && Manageable(ts, ps, arguments) && RepresentsCluster(ps, cluster)
    && IsPlan(ts, ps, true, upsertOnly, allowRecreate, arguments, plan) && |ts| == |plan.compared|
    && Executes(plan, deletes, creates, updates)
  }

  /** Whatever is applied to a described resource leaves nothing to do for it. */
  lemma AppliedIsGood(ts: seq<Snapshot>, ps: seq<Snapshot>, cluster: Cluster.State, upsertOnly: bool,
                      allowRecreate: bool, arguments: seq<string>, plan: Plan, deletes: seq<Change>,
                      creates: seq<Change>, updates: seq<Change>, call: Call, k: Key) returns (i: nat)
    requires PlanFor(ts, ps, cluster, upsertOnly, allowRecreate, arguments, plan, deletes, creates, updates)
    requires call in CallsFor(creates) + CallsFor(updates) && AppliesTo(call, k)
    ensures i < |ts| && KeyIn(ts[i]) == k && GoodDocument(ts[i], ArgumentsFor(ts[i], arguments), call.desired)
  {
    hide Manageable, RepresentsCluster, IsPlan, Executes, GoodDocument, ChangeOf, CallsFor;
    AppliedCalls(ts, ps, upsertOnly, allowRecreate, arguments, plan, creates, updates, deletes, call);
    var m, c :| 0 <= m < |ts| && ChangeOf(ts, ps, plan, m, c) && c.action != Noop && call == CallFor(c);
    ChangeIsGoodFor(ts, ps, upsertOnly, allowRecreate, arguments, plan, m, c);
    GoodDocumentKey(ts[m], ArgumentsFor(ts[m], arguments), call.desired);
    i := m;
  }

  lemma GoodDocumentKey(t: Snapshot, rs: seq<string>, d: Json)
    requires GoodDocument(t, rs, d)
    ensures KeyOf(d) == Some(KeyIn(t))
  {
  }

  lemma KeysAreUnique(ts: seq<Snapshot>, i: nat, j: nat)
    requires UniqueKeys(ts) && i < |ts| && j < |ts| && KeyIn(ts[i]) == KeyIn(ts[j])
    ensures i == j
  {
  }

  /** What is stored for a described resource leaves nothing to do for it. */
  lemma StoredIsSettled(t: Snapshot, rs: seq<string>, d: Json, n: nat, stores: Storing, ts: seq<Snapshot>, i: nat,
                        p: Snapshot)
    requires IdealServer(stores, ts) && i < |ts| && t == ts[i] && GoodDocument(t, rs, d)
    requires KeyIn(p) == KeyIn(t) && Represents(p, stores(n, d).config, stores(n, d).lastApplied)
    ensures NothingToDo(t, p, rs)
  {
    hide NothingToDo, Represents, Stores, ReadBack, Storable, KeyOf;
    StoredIsReadBack(t, d, stores(n, d), p);
  }

  lemma TouchedIsSettled(ts: seq<Snapshot>, ps: seq<Snapshot>, cluster: Cluster.State, upsertOnly: bool,
                         allowRecreate: bool,
                         arguments: seq<string>, plan: Plan, deletes: seq<Change>, creates: seq<Change>,
                         updates: seq<Change>, n: nat, stores: Storing, i: nat)
    requires PlanFor(ts, ps, cluster, upsertOnly, allowRecreate, arguments, plan, deletes, creates, updates)
    requires IdealServer(stores, ts) && i < |ts|
    requires exists c :: c in CallsFor(creates) + CallsFor(updates) && AppliesTo(c, KeyIn(ts[i]))
    ensures var after := Run(cluster, PlannedCalls(deletes, creates, updates), n, stores);
            KeyIn(ts[i]) in after && SettledAt(ts[i], after, arguments)
  {
    hide RepresentsCluster, IsPlan, Executes, GoodDocument, ChangeOf, CallsFor, Run, PlannedCalls, NothingToDo,
      Represents, ArgumentsFor, AppliesTo, IdealServer, UniqueKeys;
    var k, applied := KeyIn(ts[i]), CallsFor(creates) + CallsFor(updates);
    forall c | c in applied ensures c.ApplyCall? {
      AppliedCalls(ts, ps, upsertOnly, allowRecreate, arguments, plan, creates, updates, deletes, c);
    }
    Touched(cluster, deletes, creates, updates, n, stores, k);
    var after := Run(cluster, PlannedCalls(deletes, creates, updates), n, stores);
    var c, m :| c in applied && AppliesTo(c, k) && after[k] == stores(m, c.desired);
    var j := AppliedIsGood(ts, ps, cluster, upsertOnly, allowRecreate, arguments, plan, deletes, creates, updates, c,
                           k);
    KeysAreUnique(ts, i, j);
    forall p | KeyIn(p) == k && RepresentsEntry(p, after)
      ensures NothingToDo(ts[i], p, ArgumentsFor(ts[i], arguments))
    {
      StoredIsSettled(ts[i], ArgumentsFor(ts[i], arguments), c.desired, m, stores, ts, i, p);
    }
  }

  /** A described resource that nothing is applied to was found in sync. */
  lemma UntouchedIsUnchanged(ts: seq<Snapshot>, ps: seq<Snapshot>, cluster: Cluster.State, upsertOnly: bool,
                             allowRecreate: bool, arguments: seq<string>, plan: Plan, deletes: seq<Change>,
                             creates: seq<Change>, updates: seq<Change>, i: nat)
    requires PlanFor(ts, ps, cluster, upsertOnly, allowRecreate, arguments, plan, deletes, creates, updates)
    requires i < |ts| && forall c :: c in CallsFor(creates) + CallsFor(updates) ==> !AppliesTo(c, KeyIn(ts[i]))
    ensures IndexOf(ps, ts[i].kind, ts[i].name) < |ps|
    ensures |plan.compared[i]| == 1 && plan.compared[i][0].action == Noop
  {
    hide Manageable, RepresentsCluster, IsPlan, Executes, CallsFor, ChangeOf, PlansItem, AppliesTo;
    forall c | ChangeOf(ts, ps, plan, i, c) ensures c.action == Noop {
      if c.action != Noop {
        ChangeIsCalled(ts, ps, cluster, upsertOnly, allowRecreate, arguments, plan, deletes, creates, updates, i, c);
      }
    }
    PlanOf(ts, ps, upsertOnly, allowRecreate, arguments, plan, i);
    OnlyNoop(ts, ps, allowRecreate, arguments, plan, i);
  }

  /** Every creation or update makes a call about its resource. */
  lemma ChangeIsCalled(ts: seq<Snapshot>, ps: seq<Snapshot>, cluster: Cluster.State, upsertOnly: bool,
                       allowRecreate: bool, arguments: seq<string>, plan: Plan, deletes: seq<Change>,
                       creates: seq<Change>, updates: seq<Change>, i: nat, c: Change)
    requires PlanFor(ts, ps, cluster, upsertOnly, allowRecreate, arguments, plan, deletes, creates, updates)
    requires i < |ts| && ChangeOf(ts, ps, plan, i, c) && c.action != Noop
    ensures CallFor(c) in CallsFor(creates) + CallsFor(updates) && AppliesTo(CallFor(c), KeyIn(ts[i]))
  {
    hide Manageable, RepresentsCluster, IsPlan, Executes, GoodDocument, CallsFor, ChangeOf, KeyOf;
    ChangeIsGoodFor(ts, ps, upsertOnly, allowRecreate, arguments, plan, i, c);
    GoodDocumentKey(ts[i], ArgumentsFor(ts[i], arguments), c.desired.config);
    AppliedCalls(ts, ps, upsertOnly, allowRecreate, arguments, plan, creates, updates, deletes, CallFor(c));
  }

  lemma OnlyNoop(ts: seq<Snapshot>, ps: seq<Snapshot>, allowRecreate: bool, arguments: seq<string>, plan: Plan, i: nat)
    requires i < |ts| == |plan.compared| && PlansItem(ts, ps, true, allowRecreate, arguments, i, plan.compared[i])
    requires forall c :: ChangeOf(ts, ps, plan, i, c) ==> c.action == Noop
    ensures IndexOf(ps, ts[i].kind, ts[i].name) < |ps|
    ensures |plan.compared[i]| == 1 && plan.compared[i][0].action == Noop
  {
    hide PlansItem;
    assert IndexOf(ps, ts[i].kind, ts[i].name) == |ps| ==> ChangeOf(ts, ps, plan, i, Creation(ts[i]));
    PlannedShape(ts, ps, allowRecreate, arguments, i, plan.compared[i]);
    var changes := plan.compared[i];
    assert ChangeOf(ts, ps, plan, i, changes[|changes| - 1]);
  }

  lemma PlannedShape(ts: seq<Snapshot>, ps: seq<Snapshot>, allowRecreate: bool, arguments: seq<string>, i: nat,
                     changes: seq<Change>)
    requires i < |ts| && PlansItem(ts, ps, true, allowRecreate, arguments, i, changes)
    ensures IndexOf(ps, ts[i].kind, ts[i].name) < |ps| ==> WellFormed(ts[i].kind, ts[i].name, allowRecreate, changes)
  {
    hide WellBehaved, Correct, ImmutablesPreserved, PathsFor, TemplateDocument, PlatformDocument, WellFormed;
  }

  lemma PlanOf(ts: seq<Snapshot>, ps: seq<Snapshot>, upsertOnly: bool, allowRecreate: bool, arguments: seq<string>,
               plan: Plan, i: nat)
    requires IsPlan(ts, ps, true, upsertOnly, allowRecreate, arguments, plan) && i < |ts| == |plan.compared|
    ensures PlansItem(ts, ps, true, allowRecreate, arguments, i, plan.compared[i])
  {
    hide PlansItem;
  }

  /** No call deletes a described resource that is not recreated. */
  lemma NotDeleted(ts: seq<Snapshot>, ps: seq<Snapshot>, cluster: Cluster.State, upsertOnly: bool, allowRecreate: bool,
                   arguments: seq<string>, plan: Plan, deletes: seq<Change>, creates: seq<Change>, updates: seq<Change>,
                   i: nat)
    requires PlanFor(ts, ps, cluster, upsertOnly, allowRecreate, arguments, plan, deletes, creates, updates)
    requires i < |ts| && !Recreates(plan, i)
    ensures DeleteCall(KeyIn(ts[i])) !in CallsFor(deletes)
  {
    hide RepresentsCluster, IsPlan, CallsFor, ProperDescription, ProperResource, WellBehaved, UniqueKeys, Of;
    DeletingCalls(ts, ps, upsertOnly, allowRecreate, arguments, plan, deletes, DeleteCall(KeyIn(ts[i])));
    forall m | 0 <= m < |ts| && KeyIn(ts[m]) == KeyIn(ts[i]) ensures m == i { KeysAreUnique(ts, m, i); }
  }

  lemma Deletes(plan: Plan, deletes: seq<Change>, creates: seq<Change>, updates: seq<Change>)
    requires Executes(plan, deletes, creates, updates)
    ensures forall c :: c in deletes <==> c in Of(Action.Delete, plan.All())
  {
  }

  lemma DeletesOnly(plan: Plan, deletes: seq<Change>)
    requires forall c :: c in deletes <==> c in Of(Action.Delete, plan.All())
    ensures forall c :: c in CallsFor(deletes) ==> c.DeleteCall?
  {
    hide Of;
    forall i | 0 <= i < |deletes|
      ensures deletes[i].action == Action.Delete
    {
      OfMeaning(Action.Delete, plan.All(), deletes[i]);
    }
  }

  lemma AppliesOnly(ts: seq<Snapshot>, ps: seq<Snapshot>, cluster: Cluster.State, upsertOnly: bool, allowRecreate: bool,
                    arguments: seq<string>, plan: Plan, deletes: seq<Change>, creates: seq<Change>,
                    updates: seq<Change>)
    requires PlanFor(ts, ps, cluster, upsertOnly, allowRecreate, arguments, plan, deletes, creates, updates)
    ensures forall c :: c in CallsFor(creates) + CallsFor(updates) ==> c.ApplyCall?
  {
    hide Manageable, RepresentsCluster, IsPlan, Executes, ChangeOf, CallsFor;
    forall c | c in CallsFor(creates) + CallsFor(updates) ensures c.ApplyCall? {
      AppliedCalls(ts, ps, upsertOnly, allowRecreate, arguments, plan, creates, updates, deletes, c);
    }
  }

  lemma SameEntry(p: Snapshot, q: Snapshot, config: Json, lastApplied: Json)
    requires Represents(p, config, lastApplied) && Represents(q, config, lastApplied)
    ensures p == q
  {
    CleanedIsUnique(config, p.config, q.config);
  }

  lemma UntouchedIsSettled(ts: seq<Snapshot>, ps: seq<Snapshot>, cluster: Cluster.State, upsertOnly: bool,
                           allowRecreate: bool, arguments: seq<string>, plan: Plan, deletes: seq<Change>,
                           creates: seq<Change>, updates: seq<Change>, n: nat, stores: Storing, i: nat)
    requires PlanFor(ts, ps, cluster, upsertOnly, allowRecreate, arguments, plan, deletes, creates, updates)
    requires i < |ts| && forall c :: c in CallsFor(creates) + CallsFor(updates) ==> !AppliesTo(c, KeyIn(ts[i]))
    ensures var after := Run(cluster, PlannedCalls(deletes, creates, updates), n, stores);
            KeyIn(ts[i]) in after && SettledAt(ts[i], after, arguments)
  {
    hide Manageable, IsPlan, Executes, ChangeOf, CallsFor, AppliesTo, Run, PlannedCalls, NothingToDo, Represents,
      UniqueKeys;
    var key := KeyIn(ts[i]);
    UntouchedIsUnchanged(ts, ps, cluster, upsertOnly, allowRecreate, arguments, plan, deletes, creates, updates, i);
    NotDeleted(ts, ps, cluster, upsertOnly, allowRecreate, arguments, plan, deletes, creates, updates, i);
    Deletes(plan, deletes, creates, updates);
    DeletesOnly(plan, deletes);
    AppliesOnly(ts, ps, cluster, upsertOnly, allowRecreate, arguments, plan, deletes, creates, updates);
    Untouched(cluster, deletes, creates, updates, n, stores, key);
    var k := IndexOf(ps, ts[i].kind, ts[i].name);
    assert RepresentsEntry(ps[k], cluster) && KeyIn(ps[k]) == key;
    var after := Run(cluster, PlannedCalls(deletes, creates, updates), n, stores);
    FoundInSync(ts, ps, upsertOnly, allowRecreate, arguments, plan, i);
    forall p | KeyIn(p) == key && RepresentsEntry(p, after)
      ensures NothingToDo(ts[i], p, ArgumentsFor(ts[i], arguments))
    {
      SameEntry(p, ps[k], cluster[key].config, cluster[key].lastApplied);
    }
  }

  lemma FoundInSync(ts: seq<Snapshot>, ps: seq<Snapshot>, upsertOnly: bool, allowRecreate: bool, arguments: seq<string>,
                    plan: Plan, i: nat)
    requires Manageable(ts, ps, arguments) && IsPlan(ts, ps, true, upsertOnly, allowRecreate, arguments, plan)
    requires i < |ts| == |plan.compared| && IndexOf(ps, ts[i].kind, ts[i].name) < |ps|
    requires |plan.compared[i]| == 1 && plan.compared[i][0].action == Noop
    ensures NothingToDo(ts[i], ps[IndexOf(ps, ts[i].kind, ts[i].name)], ArgumentsFor(ts[i], arguments))
  {
    hide IsPlan, UniqueKeys, ProperDescription, ProperResource, WellBehaved, NothingToDo, Correct, ImmutablesPreserved,
      PathsFor, TemplateDocument, PlatformDocument, WellFormed;
    var t, p, rs := ts[i], ps[IndexOf(ps, ts[i].kind, ts[i].name)], ArgumentsFor(ts[i], arguments);
    assert WellBehaved(t, p, rs) by { assert KeyIn(t) == KeyIn(p); }
    PlanOf(ts, ps, upsertOnly, allowRecreate, arguments, plan, i);
    NoopConverges(t, p, rs, t.name, allowRecreate, Success(plan.compared[i]));
  }

  /** Convergence: when the calls of a plan are made on an idealised cluster, all described resources are then
      in sync and, unless only upserting, no others are left. */
  lemma ExecutedPlanIsInSync(ts: seq<Snapshot>, ps: seq<Snapshot>, cluster: Cluster.State, upsertOnly: bool,
                             allowRecreate: bool, arguments: seq<string>, plan: Plan, deletes: seq<Change>,
                             creates: seq<Change>, updates: seq<Change>, n: nat, stores: Storing)
    requires PlanFor(ts, ps, cluster, upsertOnly, allowRecreate, arguments, plan, deletes, creates, updates)
    requires IdealServer(stores, ts)
    ensures InSyncWith(ts, Run(cluster, PlannedCalls(deletes, creates, updates), n, stores), upsertOnly, arguments)
  {
    hide PlanFor, CallsFor, AppliesTo, Run, PlannedCalls, SettledAt, IdealServer;
    var after := Run(cluster, PlannedCalls(deletes, creates, updates), n, stores);
    var applied := CallsFor(creates) + CallsFor(updates);
    forall i | 0 <= i < |ts| ensures KeyIn(ts[i]) in after && SettledAt(ts[i], after, arguments) {
      if exists c :: c in applied && AppliesTo(c, KeyIn(ts[i])) {
        TouchedIsSettled(ts, ps, cluster, upsertOnly, allowRecreate, arguments, plan, deletes, creates, updates, n,
                         stores, i);
      } else {
        UntouchedIsSettled(ts, ps, cluster, upsertOnly, allowRecreate, arguments, plan, deletes, creates, updates, n,
                           stores, i);
      }
    }
    if !upsertOnly {
      forall k | k in after ensures Described(ts, k) {
        LeftIsDescribed(ts, ps, cluster, allowRecreate, arguments, plan, deletes, creates, updates, n, stores, k);
      }
    }
  }

  /** Without upsert-only, every resource that is left is described. */
  lemma LeftIsDescribed(ts: seq<Snapshot>, ps: seq<Snapshot>, cluster: Cluster.State, allowRecreate: bool,
                        arguments: seq<string>, plan: Plan, deletes: seq<Change>, creates: seq<Change>,
                        updates: seq<Change>, n: nat, stores: Storing, k: Key)
    requires PlanFor(ts, ps, cluster, false, allowRecreate, arguments, plan, deletes, creates, updates)
    requires k in Run(cluster, PlannedCalls(deletes, creates, updates), n, stores)
    ensures Described(ts, k)
  {
    hide Manageable, IsPlan, Executes, ChangeOf, CallsFor, AppliesTo, Run, PlannedCalls, Represents, UniqueKeys,
      GoodDocument;
    var applied := CallsFor(creates) + CallsFor(updates);
    if c :| c in applied && AppliesTo(c, k) {
      var i := AppliedIsGood(ts, ps, cluster, false, allowRecreate, arguments, plan, deletes, creates, updates, c, k);
    } else {
      Deletes(plan, deletes, creates, updates);
      DeletesOnly(plan, deletes);
      AppliesOnly(ts, ps, cluster, false, allowRecreate, arguments, plan, deletes, creates, updates);
      Untouched(cluster, deletes, creates, updates, n, stores, k);
      var j :| 0 <= j < |ps| && KeyIn(ps[j]) == k;
      DeletingCalls(ts, ps, false, allowRecreate, arguments, plan, deletes, DeleteCall(k));
      assert Contains(ts, ps[j]);
      assert KeyIn(ts[IndexOf(ts, ps[j].kind, ps[j].name)]) == k;
    }
  }

  /** A cluster in sync needs no change: a further plan for it creates, updates and deletes nothing. */
  lemma InSyncMeansBlank(ts: seq<Snapshot>, ps: seq<Snapshot>, cluster: Cluster.State, upsertOnly: bool,
                         allowRecreate: bool, arguments: seq<string>, plan: Plan)
    requires InSyncWith(ts, cluster, upsertOnly, arguments) && RepresentsCluster(ps, cluster) && UniqueKeys(ts)
    requires IsPlan(ts, ps, true, upsertOnly, allowRecreate, arguments, plan)
    ensures Of(Create, plan.All()) == Of(Update, plan.All()) == Of(Action.Delete, plan.All()) == []
  {
    hide Of, PlansItem, NothingToDo, Represents, Creations, Deletions, Flatten, SettledAt;
    forall j | 0 <= j < |ps| && !upsertOnly ensures Contains(ts, ps[j]) {
      assert RepresentsEntry(ps[j], cluster) && Described(ts, KeyIn(ps[j]));
      var i :| 0 <= i < |ts| && KeyIn(ts[i]) == KeyIn(ps[j]);
      FoundAt(ts, i, ps[j]);
    }
    forall i | 0 <= i < |ts| ensures Contains(ps, ts[i]) {
      assert KeyIn(ts[i]) in cluster;
      var j :| 0 <= j < |ps| && KeyIn(ps[j]) == KeyIn(ts[i]);
      FoundAt(ps, j, ts[i]);
    }
    if !upsertOnly { NothingDeleted(ps, ts); }
    NothingCreated(ts, ps);
    forall i, c | 0 <= i < |ts| && c in plan.compared[i] ensures c.action == Noop {
      assert PlansItem(ts, ps, true, allowRecreate, arguments, i, plan.compared[i]);
      ComparedAgain(ts, ps, cluster, allowRecreate, arguments, i, plan.compared[i]);
    }
    assert plan.All() == Flatten(plan.compared);
    forall c | c in plan.All() ensures c.action == Noop { FlattenMeaning(plan.compared, c); }
    OnlyNoops(Create, plan.All());
    OnlyNoops(Update, plan.All());
    OnlyNoops(Action.Delete, plan.All());
  }

  lemma FoundAt(list: seq<Snapshot>, i: nat, s: Snapshot)
    requires i < |list| && KeyIn(list[i]) == KeyIn(s)
    ensures Contains(list, s)
  {
  }

  lemma {:induction false} NothingDeleted(ps: seq<Snapshot>, ts: seq<Snapshot>)
    requires forall j :: 0 <= j < |ps| ==> Contains(ts, ps[j])
    ensures Deletions(ps, ts) == []
  {
    if ps != [] { NothingDeleted(ps[..|ps| - 1], ts); }
  }

  lemma {:induction false} NothingCreated(ts: seq<Snapshot>, ps: seq<Snapshot>)
    requires forall i :: 0 <= i < |ts| ==> Contains(ps, ts[i])
    ensures Creations(ts, ps) == []
  {
    if ts != [] { NothingCreated(ts[..|ts| - 1], ps); }
  }

  lemma ComparedAgain(ts: seq<Snapshot>, ps: seq<Snapshot>, cluster: Cluster.State, allowRecreate: bool,
                      arguments: seq<string>, i: nat, changes: seq<Change>)
    requires i < |ts| && SettledAt(ts[i], cluster, arguments) && RepresentsCluster(ps, cluster) && Contains(ps, ts[i])
    requires PlansItem(ts, ps, true, allowRecreate, arguments, i, changes)
    ensures forall c :: c in changes ==> c.action == Noop
  {
    hide Correct, Represents, Synced, ImmutablesPreserved, PathsFor, TemplateDocument, PlatformDocument, WellFormed,
      WellBehaved;
    var t, p, rs := ts[i], ps[IndexOf(ps, ts[i].kind, ts[i].name)], ArgumentsFor(ts[i], arguments);
    assert RepresentsEntry(p, cluster);
    NothingToDoMeansNoop(t, p, rs, t.name, allowRecreate, Success(changes));
  }

  lemma {:induction false} OnlyNoops(action: Action, changes: seq<Change>)
    requires action != Noop && forall c :: c in changes ==> c.action == Noop
    ensures Of(action, changes) == []
  {
    if changes != [] {
      assert changes[|changes| - 1] in changes;
      OnlyNoops(action, changes[..|changes| - 1]);
    }
  }

  // ---- identities ----

  /** Every resource in the cluster is kept under its kind and name. */
  ghost predicate Keyed(cluster: Cluster.State) {
    forall k :: k in cluster ==> HasIdentity(cluster[k].config, k)
  }

  lemma IdentityIsNotManaged()
    ensures !IsManaged(KIND) && !IsManaged(NAME)
  {
    hide Enc;
    forall i | 0 <= i < |SIMPLE_FIELDS| ensures !(SIMPLE_FIELDS[i] <= KIND) && !(SIMPLE_FIELDS[i] <= NAME) {
      FieldsApartFromIdentity(i);
    }
    if MatchesRegexField(Enc(KIND)) { MatchingSpec(KIND); }
    if MatchesRegexField(Enc(NAME)) { MatchingSpec(NAME); }
  }

  lemma FieldsApartFromIdentity(i: nat)
    requires i < |SIMPLE_FIELDS|
    ensures SIMPLE_FIELDS[i] != [] && SIMPLE_FIELDS[i][0] != "kind"
    ensures SIMPLE_FIELDS[i][0] == "metadata" ==> |SIMPLE_FIELDS[i]| > 1 && SIMPLE_FIELDS[i][1] != "name"
  {
  }

  lemma StoredIdentity(t: Snapshot, d: Json, e: Entry, key: Key)
    requires Stores(t, d, e) && Storable(d) && HasIdentity(d, key)
    ensures HasIdentity(e.config, key)
  {
    hide Get, IsManaged, Annotated, Storable, Foreign;
    IdentityIsNotManaged();
    var extras :| Foreign(extras, t, d) && Cleaned(e.config, Annotated(d, extras));
    assert KIND[0] != ANNOTATIONS[0] && NAME[1] != ANNOTATIONS[1];
    AnnotatedElsewhere(d, extras, KIND);
    AnnotatedElsewhere(d, extras, NAME);
    StringOfLabel(e.config, KIND, key.kind);
    StringOfLabel(e.config, NAME, key.name);
    StringOfLabel(Annotated(d, extras), KIND, key.kind);
    StringOfLabel(Annotated(d, extras), NAME, key.name);
  }

  lemma ExecutedPlanIsKeyed(ts: seq<Snapshot>, ps: seq<Snapshot>, cluster: Cluster.State, upsertOnly: bool,
                            allowRecreate: bool, arguments: seq<string>, plan: Plan, deletes: seq<Change>,
                            creates: seq<Change>, updates: seq<Change>, n: nat, stores: Storing)
    requires PlanFor(ts, ps, cluster, upsertOnly, allowRecreate, arguments, plan, deletes, creates, updates)
    requires IdealServer(stores, ts) && Keyed(cluster)
    ensures Keyed(Run(cluster, PlannedCalls(deletes, creates, updates), n, stores))
  {
    hide CallsFor, AppliesTo, Run, PlannedCalls, IdealServer, Manageable, RepresentsCluster, IsPlan, Executes,
      HasIdentity;
    var after := Run(cluster, PlannedCalls(deletes, creates, updates), n, stores);
    var applied := CallsFor(creates) + CallsFor(updates);
    AppliesOnly(ts, ps, cluster, upsertOnly, allowRecreate, arguments, plan, deletes, creates, updates);
    Deletes(plan, deletes, creates, updates);
    DeletesOnly(plan, deletes);
    forall k | k in after ensures HasIdentity(after[k].config, k) {
      if exists c :: c in applied && AppliesTo(c, k) {
        Touched(cluster, deletes, creates, updates, n, stores, k);
        var c, m :| c in applied && AppliesTo(c, k) && after[k] == stores(m, c.desired);
        var i := AppliedIsGood(ts, ps, cluster, upsertOnly, allowRecreate, arguments, plan, deletes, creates, updates,
                               c, k);
        GoodIdentity(ts, i, ArgumentsFor(ts[i], arguments), c.desired, m, stores);
      } else {
        Untouched(cluster, deletes, creates, updates, n, stores, k);
      }
    }
  }

  lemma GoodIdentity(ts: seq<Snapshot>, i: nat, rs: seq<string>, d: Json, n: nat, stores: Storing)
    requires IdealServer(stores, ts) && i < |ts| && GoodDocument(ts[i], rs, d)
    ensures HasIdentity(stores(n, d).config, KeyIn(ts[i]))
  {
    hide Get, NothingToDo, ReadBack, Storable, Stores;
    StoredIdentity(ts[i], d, stores(n, d), KeyIn(ts[i]));
  }

  // ---- secrets of no interest ----

  lemma TypeIsNotManaged()
    ensures !IsManaged(SECRET_TYPE)
  {
    hide Enc;
    forall i | 0 <= i < |SIMPLE_FIELDS| ensures !(SIMPLE_FIELDS[i] <= SECRET_TYPE) { FieldsApartFromType(i); }
    if MatchesRegexField(Enc(SECRET_TYPE)) { MatchingSpec(SECRET_TYPE); }
  }

  lemma FieldsApartFromType(i: nat)
    requires i < |SIMPLE_FIELDS|
    ensures SIMPLE_FIELDS[i] != [] && SIMPLE_FIELDS[i][0] != "type"
  {
  }

  lemma StoredIsComparable(t: Snapshot, d: Json, e: Entry)
    requires Stores(t, d, e) && Storable(d) && IsComparable(d)
    ensures IsComparable(e.config)
  {
    hide Get, IsManaged, Annotated, Storable, Foreign, IsComparable;
    IdentityIsNotManaged();
    TypeIsNotManaged();
    var extras :| Foreign(extras, t, d) && Cleaned(e.config, Annotated(d, extras));
    assert KIND[0] != ANNOTATIONS[0] && SECRET_TYPE[0] != ANNOTATIONS[0];
    AnnotatedElsewhere(d, extras, KIND);
    AnnotatedElsewhere(d, extras, SECRET_TYPE);
    SameComparable(e.config, d);
  }

  lemma GoodIsComparable(ts: seq<Snapshot>, i: nat, rs: seq<string>, d: Json, n: nat, stores: Storing)
    requires IdealServer(stores, ts) && i < |ts| && GoodDocument(ts[i], rs, d)
    ensures IsComparable(stores(n, d).config)
  {
    hide Get, NothingToDo, ReadBack, Storable, Stores, IsComparable;
    StoredIsComparable(ts[i], d, stores(n, d));
  }

  /** A plan for the resources that are compared has the same effect on them in the whole cluster. */
  lemma PlanLeavesOthers(ts: seq<Snapshot>, ps: seq<Snapshot>, cluster: Cluster.State, upsertOnly: bool,
                         allowRecreate: bool, arguments: seq<string>, plan: Plan, deletes: seq<Change>,
                         creates: seq<Change>, updates: seq<Change>, n: nat, stores: Storing)
    requires PlanFor(ts, ps, Visible(cluster), upsertOnly, allowRecreate, arguments, plan, deletes, creates, updates)
    requires IdealServer(stores, ts)
    ensures var calls := PlannedCalls(deletes, creates, updates);
            Visible(Run(cluster, calls, n, stores)) == Run(Visible(cluster), calls, n, stores)
  {
    hide CallsFor, Run, IdealServer, Manageable, RepresentsCluster, IsPlan, Executes, IsComparable, KeyOf, GoodDocument,
      Visible;
    var applied, calls := CallsFor(creates) + CallsFor(updates), PlannedCalls(deletes, creates, updates);
    Deletes(plan, deletes, creates, updates);
    DeletesOnly(plan, deletes);
    forall c, m | c in calls && c.ApplyCall? && KeyOf(c.desired).Some?
      ensures IsComparable(stores(m, c.desired).config)
    {
      assert c in applied && AppliesTo(c, KeyOf(c.desired).value);
      var i := AppliedIsGood(ts, ps, Visible(cluster), upsertOnly, allowRecreate, arguments, plan, deletes, creates,
                             updates, c,
                             KeyOf(c.desired).value);
      GoodIsComparable(ts, i, ArgumentsFor(ts[i], arguments), c.desired, m, stores);
    }
    RunVisible(cluster, calls, n, stores);
  }
}
