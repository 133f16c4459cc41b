/** The apply command (pkg/commands/apply.go). */
module Applying {
  import opened Wrappers
  import opened Documents
  import opened Items
  import opened Changes
  import opened Preserving
  import opened Changesets
  import opened Planning
  import opened Conservation
  import opened Cluster
  import opened Reconciled
  import opened Executing
  import opened Asking
  import opened Diffing

  predicate SelectingAllowed(options: CompareOptions, planned: seq<Change>) {
    !options.verify && |planned| != 1
  }

  /** The changes to execute, as far as no call fails, given the lines of input. */
  function Intended(nonInteractive: bool, options: CompareOptions, lines: seq<string>, planned: seq<Change>)
    : seq<Change> {
    if nonInteractive then planned
    else
      var selecting := SelectingAllowed(options, planned);
      var (reply, others) := Ask(Offer(selecting), lines);
      if reply == Some("y") then planned
      else if reply == Some("s") && selecting then Chosen(planned, 0, Decisions(others))
      else []
  }

  /** The input answers all questions that are asked about the planned changes. */
  predicate Answered(nonInteractive: bool, options: CompareOptions, lines: seq<string>, planned: seq<Change>) {
    nonInteractive ||
    var selecting := SelectingAllowed(options, planned);
    var (reply, others) := Ask(Offer(selecting), lines);
    reply.Some? && (reply.value == "s" && selecting ==> |planned| <= |Decisions(others)|)
  }

  lemma IntendedIsSome(nonInteractive: bool, options: CompareOptions, lines: seq<string>, planned: seq<Change>)
    ensures SomeOf(Intended(nonInteractive, options, lines, planned), planned)
  {
    hide Ask, Decisions, Chosen;
    SomeOfSame(planned);
    ChosenIsSome(planned, 0, Decisions(Ask(Offer(SelectingAllowed(options, planned)), lines).1));
  }

  /** The plan a run was about, its changes in the order of execution, and the changes that were executed. */
  datatype Journal = Journal(
    ts: seq<Snapshot>,
    ps: seq<Snapshot>,
    plan: Plan,
    deletes: seq<Change>,
    creates: seq<Change>,
    updates: seq<Change>,
    made: seq<Change>)
  {
    function Planned(): seq<Change> {
      deletes + creates + updates
    }
  }

  const NO_JOURNAL := Journal([], [], Plan([], [], []), [], [], [], [])

  /** The journal is about a comparison with the cluster, and lists exactly the planned changes, by kind. */
  ghost predicate Faithful(j: Journal, options: CompareOptions, templates: seq<Json>, cluster: Cluster.State) {
    && Compared(j.ts, j.ps, templates, cluster) && IsPlanFor(options, j.ts, j.ps, j.plan)
    && multiset(j.deletes) == multiset(Of(Action.Delete, j.plan.All())) && Ordered(j.deletes, true)
    && multiset(j.creates) == multiset(Of(Create, j.plan.All())) && Ordered(j.creates, false)
    && multiset(j.updates) == multiset(Of(Update, j.plan.All())) && Ordered(j.updates, false)
  }

  /** The situation in which a full run is known to bring the cluster in sync. */
  ghost predicate Ideal(j: Journal, options: CompareOptions, cluster: Cluster.State, stores: Storing) {
    Keyed(Visible(cluster)) && Manageable(j.ts, j.ps, options.Arguments()) && IdealServer(stores, j.ts)
  }

  /** What was executed has no part in it. */
  lemma StillFaithful(j: Journal, made: seq<Change>, options: CompareOptions, templates: seq<Json>,
                      cluster: Cluster.State)
    requires Faithful(j, options, templates, cluster)
    ensures Faithful(j.(made := made), options, templates, cluster)
    ensures forall stores :: Ideal(j, options, cluster, stores) <==> Ideal(j.(made := made), options, cluster, stores)
  {
    hide Compared, IsPlanFor, Of, Ordered, Manageable, IdealServer, Keyed, Visible;
  }

  lemma SameMembers(a: seq<Change>, b: seq<Change>)
    requires multiset(a) == multiset(b)
    ensures forall c :: c in a <==> c in b
  {
    forall c ensures c in a <==> c in b {
      assert c in a <==> c in multiset(a);
      assert c in b <==> c in multiset(b);
    }
  }

  /** All changes of a plan can be handed to the client. */
  lemma PlanIsExecutable(j: Journal, options: CompareOptions, templates: seq<Json>, cluster: Cluster.State)
    requires Faithful(j, options, templates, cluster)
    ensures Executable(j.deletes, true) && Executable(j.creates, false) && Executable(j.updates, false)
  {
    hide Compared, Of, IsPlan, Ordered, PlansItem;
    SameMembers(j.deletes, Of(Action.Delete, j.plan.All()));
    SameMembers(j.creates, Of(Create, j.plan.All()));
    SameMembers(j.updates, Of(Update, j.plan.All()));
    forall c ensures c in j.deletes ==> c.action == Action.Delete { OfMeaning(Action.Delete, j.plan.All(), c); }
    forall c ensures (c in j.creates || c in j.updates) ==> c.action != Action.Delete && c.desired.Yaml? {
      OfMeaning(Create, j.plan.All(), c);
      OfMeaning(Update, j.plan.All(), c);
      if c in j.creates || c in j.updates {
        PlannedState(j.ts, j.ps, UniqueKeys(j.ts), options.upsertOnly, options.allowRecreate, options.Arguments(),
                     j.plan, c);
      }
    }
  }

  lemma PlannedState(ts: seq<Snapshot>, ps: seq<Snapshot>, sound: bool, upsertOnly: bool, allowRecreate: bool,
                     arguments: seq<string>, plan: Plan, c: Change)
    requires IsPlan(ts, ps, sound, upsertOnly, allowRecreate, arguments, plan)
    requires c in plan.All() && c.action != Action.Delete
    ensures c.desired.Yaml?
  {
    hide Deletions, Creations, Flatten, PlansItem, PathsFor;
    DeletionsMeaning(ps, ts, c);
    CreationsMeaning(ts, ps, c);
    FlattenMeaning(plan.compared, c);
    if i :| 0 <= i < |plan.compared| && c in plan.compared[i] {
      assert PlansItem(ts, ps, sound, allowRecreate, arguments, i, plan.compared[i]);
      ComparedState(ts, ps, sound, allowRecreate, arguments, i, plan.compared[i], c);
    }
  }

  lemma ComparedState(ts: seq<Snapshot>, ps: seq<Snapshot>, sound: bool, allowRecreate: bool, arguments: seq<string>,
                      i: nat, changes: seq<Change>, c: Change)
    requires i < |ts| && PlansItem(ts, ps, sound, allowRecreate, arguments, i, changes) && c in changes
    ensures c.action != Action.Delete ==> c.desired.Yaml?
  {
    hide WellBehaved, Correct, ImmutablesPreserved, PathsFor, TemplateDocument, PlatformDocument;
  }

  lemma CallsOfPlanned(j: Journal)
    ensures CallsFor(j.Planned()) == PlannedCalls(j.deletes, j.creates, j.updates)
  {
    CallsConcat(j.deletes + j.creates, j.updates);
    CallsConcat(j.deletes, j.creates);
  }

  /** A complete run in the ideal situation leaves everything in sync. */
  lemma CompleteRunIsInSync(j: Journal, options: CompareOptions, templates: seq<Json>, cluster: Cluster.State, n: nat,
                            stores: Storing)
    requires Faithful(j, options, templates, cluster) && Ideal(j, options, cluster, stores)
    ensures var after := Run(cluster, CallsFor(j.Planned()), n, stores);
            InSyncWith(j.ts, Visible(after), options.upsertOnly, options.Arguments()) && Keyed(Visible(after))
  {
    hide Of, IsPlan, Ordered, InSyncWith, RepresentsCluster, RepresentsTemplates, IdealServer, Keyed, PlannedCalls,
      CallsFor, Run, Visible, DescribedBy;
    SameMembers(j.deletes, Of(Action.Delete, j.plan.All()));
    SameMembers(j.creates, Of(Create, j.plan.All()));
    SameMembers(j.updates, Of(Update, j.plan.All()));
    CallsOfPlanned(j);
    PlanCovers(j, options);
    PlanLeavesOthers(j.ts, j.ps, cluster, options.upsertOnly, options.allowRecreate, options.Arguments(), j.plan,
                     j.deletes, j.creates, j.updates, n, stores);
    ExecutedPlanIsInSync(j.ts, j.ps, Visible(cluster), options.upsertOnly, options.allowRecreate, options.Arguments(),
                         j.plan, j.deletes, j.creates, j.updates, n, stores);
    ExecutedPlanIsKeyed(j.ts, j.ps, Visible(cluster), options.upsertOnly, options.allowRecreate, options.Arguments(),
                        j.plan, j.deletes, j.creates, j.updates, n, stores);
  }

  lemma PlanCovers(j: Journal, options: CompareOptions)
    requires IsPlanFor(options, j.ts, j.ps, j.plan)
    ensures |j.ts| == |j.plan.compared|
  {
  }

  lemma SameTemplates(a: seq<Snapshot>, b: seq<Snapshot>, templates: seq<Json>)
    requires RepresentsTemplates(a, templates) && RepresentsTemplates(b, templates)
    ensures a == b
  {
    hide Represents;
    forall i | 0 <= i < |a| ensures a[i] == b[i] {
      SameDescription(a[i], b[i], templates[i]);
    }
  }

  lemma SameDescription(a: Snapshot, b: Snapshot, m: Json)
    requires Represents(a, m, NOTHING_APPLIED) && Represents(b, m, NOTHING_APPLIED)
    ensures a == b
  {
    CleanedIsUnique(m, a.config, b.config);
  }

  /** A further comparison finds no drift in a cluster in sync. */
  lemma NoDriftInSync(j: Journal, options: CompareOptions, templates: seq<Json>, cluster: Cluster.State,
                      ts: seq<Snapshot>, ps: seq<Snapshot>, plan: Plan)
    requires UniqueKeys(j.ts) && RepresentsTemplates(j.ts, DescribedBy(templates))
    requires InSyncWith(j.ts, Visible(cluster), options.upsertOnly, options.Arguments()) && Keyed(Visible(cluster))
    requires Compared(ts, ps, templates, cluster) && IsPlanFor(options, ts, ps, plan)
    ensures Of(Create, plan.All()) == Of(Update, plan.All()) == Of(Action.Delete, plan.All()) == []
  {
    hide Of, IsPlan, InSyncWith, RepresentsCluster, RepresentsTemplates, Keyed, UniqueKeys, Visible, DescribedBy;
    SameTemplates(j.ts, ts, DescribedBy(templates));
    InSyncMeansBlank(ts, ps, Visible(cluster), options.upsertOnly, options.allowRecreate, options.Arguments(), plan);
  }

  lemma BlankMeans(changeset: Changeset)
    requires changeset.Valid()
    ensures changeset.Blank() <==>
            Of(Create, changeset.added) == [] && Of(Update, changeset.added) == [] &&
            Of(Action.Delete, changeset.added) == []
  {
    hide Of, Ordered;
    SameSize(changeset.create, Of(Create, changeset.added));
    SameSize(changeset.update, Of(Update, changeset.added));
    SameSize(changeset.delete, Of(Action.Delete, changeset.added));
  }

  lemma SameSize(a: seq<Change>, b: seq<Change>)
    requires multiset(a) == multiset(b)
    ensures |a| == |b|
  {
    assert |multiset(a)| == |a| && |multiset(b)| == |b|;
  }

  /** A comparison of the templates with the cluster plans some change. */
  ghost predicate SeenDrifting(options: CompareOptions, templates: seq<Json>, cluster: Cluster.State) {
    exists ts, ps, plan ::
      && Compared(ts, ps, templates, cluster) && IsPlanFor(options, ts, ps, plan)
      && !(Of(Create, plan.All()) == Of(Update, plan.All()) == Of(Action.Delete, plan.All()) == [])
  }

  /** Compares again, after a complete run. Drift that is found then is an error. */
  method PerformVerification(options: CompareOptions, client: OcClient) returns (error: Option<Problem>)
    ensures error.None? ==> SeenInSync(options, client.templates, client.cluster)
    ensures error.Some? ==> !error.value.CallFailed? && !error.value.InputEnded?
    ensures error == Some(VerificationFailed) ==> SeenDrifting(options, client.templates, client.cluster)
  {
    hide Compared, IsPlanFor, Of;
    var drift, changeset, problem, ts, ps, plan := CalculateChangeset(options, client);
    if problem.Some? {
      return problem;
    }
    BlankMeans(changeset);
    if drift {
      return Some(VerificationFailed);
    }
    return None;
  }

  /** What a run of Apply guarantees, whatever the input is and whichever calls fail: it made the calls for the
      intended changes, in the planned order and up to the first failure, and reports no drift and no error only
      when all planned changes were executed. */
  ghost predicate Accounted(client: OcClient, cluster: Cluster.State, calls: seq<Call>, intended: seq<Change>,
                            j: Journal, drift: bool, error: Option<Problem>)
    reads client
  {
    && j.made <= intended && client.calls == calls + CallsFor(j.made)
    && if error.None? then
         && j.made == intended && client.cluster == Run(cluster, CallsFor(j.made), |calls|, client.stores)
         && (drift <==> j.made != j.Planned())
       else
         && (drift <==> j.Planned() != [])
         && (error.value.CallFailed? ==> j.made != [] && error.value.call == CallFor(j.made[|j.made| - 1]))
         && (error.value.InputEnded? ==>
               j.made == intended && client.cluster == Run(cluster, CallsFor(j.made), |calls|, client.stores))
         && (!error.value.CallFailed? && !error.value.InputEnded? ==> j.made == j.Planned())
  }

  /** What follows from a complete run, in the ideal situation. */
  ghost predicate Reconciles(j: Journal, options: CompareOptions, client: OcClient, drift: bool, error: Option<Problem>)
    reads client
  {
    && (error.None? && !drift ==> InSyncWith(j.ts, Visible(client.cluster), options.upsertOnly, options.Arguments()))
    && error != Some(VerificationFailed)
  }

  lemma DidIsAccounted(client: OcClient, cluster: Cluster.State, calls: seq<Call>, intended: seq<Change>, j: Journal,
                       drift: bool, error: Option<Problem>)
    requires Did(client, cluster, calls, j.made, error) && j.made <= intended
    requires if error.None? then j.made == intended && (drift <==> j.made != j.Planned())
             else drift && j.Planned() != []
    requires error == Some(InputEnded) ==> j.made == intended
    ensures Accounted(client, cluster, calls, intended, j, drift, error)
    ensures error.Some? ==> error.value.CallFailed? || error.value.InputEnded?
  {
  }

  lemma VerificationIsAccounted(client: OcClient, cluster: Cluster.State, calls: seq<Call>, j: Journal,
                                error: Option<Problem>)
    requires Did(client, cluster, calls, j.made, None) && j.made == j.Planned() != []
    requires error.Some? && !error.value.CallFailed? && !error.value.InputEnded?
    ensures Accounted(client, cluster, calls, j.Planned(), j, true, error)
  {
  }

  lemma ReconciledIfComplete(client: OcClient, cluster: Cluster.State, calls: seq<Call>, intended: seq<Change>,
                             j: Journal, options: CompareOptions, drift: bool, error: Option<Problem>)
    requires Accounted(client, cluster, calls, intended, j, drift, error)
    requires Faithful(j, options, client.templates, cluster)
    requires Ideal(j, options, cluster, client.stores) ==> error != Some(VerificationFailed)
    ensures Ideal(j, options, cluster, client.stores) ==> Reconciles(j, options, client, drift, error)
  {
    hide Faithful, Ideal, InSyncWith, Run, CallsFor, Visible;
    if Ideal(j, options, cluster, client.stores) {
      CompleteRunIsInSync(j, options, client.templates, cluster, |calls|, client.stores);
    }
  }

  /** In the ideal situation, the verification of a complete run finds no drift. */
  lemma VerificationFindsNoDrift(client: OcClient, cluster: Cluster.State, calls: seq<Call>, j: Journal,
                                 options: CompareOptions)
    requires Did(client, cluster, calls, j.made, None) && j.made == j.Planned()
    requires Faithful(j, options, client.templates, cluster)
    ensures Ideal(j, options, cluster, client.stores) ==> !SeenDrifting(options, client.templates, client.cluster)
  {
    hide InSyncWith, Run, CallsFor, RepresentsTemplates, RepresentsCluster, IdealServer, IsPlan, Of, Ordered,
      IsPlanFor, UniqueKeys, Keyed, Visible, DescribedBy;
    if Ideal(j, options, cluster, client.stores) {
      CompleteRunIsInSync(j, options, client.templates, cluster, |calls|, client.stores);
      forall ts, ps, plan | Compared(ts, ps, client.templates, client.cluster) && IsPlanFor(options, ts, ps, plan)
        ensures Of(Create, plan.All()) == Of(Update, plan.All()) == Of(Action.Delete, plan.All()) == []
      {
        NoDriftInSync(j, options, client.templates, client.cluster, ts, ps, plan);
      }
    }
  }

  // ---- what the replies lead to ----

  /** made are the planned changes at the ascending indices ks; the decision about each of them is yes. */
  ghost predicate Picked(ks: seq<nat>, made: seq<Change>, planned: seq<Change>, decisions: seq<bool>) {
    && |ks| == |made| && (forall x, y :: 0 <= x < y < |ks| ==> ks[x] < ks[y])
    && forall x :: 0 <= x < |ks| ==> ks[x] < |planned| && made[x] == planned[ks[x]] &&
                                     ks[x] < |decisions| && decisions[ks[x]]
  }

  /** Only changes that were agreed to were made, each once and in the planned order; and all these, if so claimed. */
  ghost predicate MadeAsAgreed(made: seq<Change>, planned: seq<Change>, decisions: seq<bool>, all: bool) {
    exists ks :: Picked(ks, made, planned, decisions) &&
                 (all ==> forall k :: 0 <= k < |planned| && k < |decisions| && decisions[k] ==> k in ks)
  }

  lemma {:induction false} ChosenIsPicked(planned: seq<Change>, decisions: seq<bool>) returns (ks: seq<nat>)
    ensures Picked(ks, Chosen(planned, 0, decisions), planned, decisions)
    ensures forall k :: 0 <= k < |planned| && k < |decisions| && decisions[k] ==> k in ks
  {
    if planned == [] {
      ks := [];
    } else {
      var n := |planned| - 1;
      ks := ChosenIsPicked(planned[..n], decisions);
      if Agreed(decisions, n) { ks := ks + [n]; }
    }
  }

  lemma ChosenIsAgreed(made: seq<Change>, planned: seq<Change>, decisions: seq<bool>, all: bool)
    requires made <= Chosen(planned, 0, decisions) && (all ==> made == Chosen(planned, 0, decisions))
    ensures MadeAsAgreed(made, planned, decisions, all)
  {
    hide Chosen;
    var ks := ChosenIsPicked(planned, decisions);
    assert Picked(ks[..|made|], made, planned, decisions);
    if all { assert ks[..|made|] == ks; }
  }

  /** What the first reply leads to, when something is planned and the reply is awaited. With yes, all planned changes
      are made, up to a failure; with no, nothing is done; selecting, only what its own decision agrees to is done; and
      without a reply, nothing is done either. */
  ghost predicate AsReplied(nonInteractive: bool, options: CompareOptions, lines: seq<string>, client: OcClient,
                            calls: seq<Call>, j: Journal, drift: bool, error: Option<Problem>)
    reads client
  {
    var planned := j.Planned();
    var (reply, others) := Ask(Offer(!options.verify && |planned| != 1), lines);
    && (nonInteractive || reply == Some("y") ==> j.made <= planned && (error.None? ==> j.made == planned))
    && (!nonInteractive && reply == Some("n") && planned != [] ==> client.calls == calls && drift && error.None?)
    && (!nonInteractive && reply == Some("s") && !options.verify && |planned| != 1 ==>
          MadeAsAgreed(j.made, planned, Decisions(others), error.None?))
    && (!nonInteractive && reply.None? && planned != [] ==>
          client.calls == calls && drift && error == Some(InputEnded))
  }

  /** A run that is accounted for did what its replies say. */
  lemma DoneAsReplied(nonInteractive: bool, options: CompareOptions, lines: seq<string>, client: OcClient,
                      cluster: Cluster.State, calls: seq<Call>, j: Journal, drift: bool, error: Option<Problem>)
    requires Accounted(client, cluster, calls, Intended(nonInteractive, options, lines, j.Planned()), j, drift, error)
    requires error == Some(InputEnded) ==> !Answered(nonInteractive, options, lines, j.Planned())
    requires error.None? && j.Planned() != [] ==> Answered(nonInteractive, options, lines, j.Planned())
    ensures AsReplied(nonInteractive, options, lines, client, calls, j, drift, error)
  {
    hide Ask, Decisions, Offer, Chosen, CallsFor, CallFor, Run;
    var planned := j.Planned();
    var (reply, others) := Ask(Offer(!options.verify && |planned| != 1), lines);
    assert CallsFor([]) == [] by { CallsForNone(); }
    assert calls + [] == calls;
    if !nonInteractive && reply == Some("s") && !options.verify && |planned| != 1 {
      ChosenIsAgreed(j.made, planned, Decisions(others), error.None?);
    }
  }

  lemma CallsForNone()
    ensures CallsFor([]) == []
  {
  }

  method Apply(nonInteractive: bool, options: CompareOptions, reader: Reader, client: OcClient)
    returns (drift: bool, error: Option<Problem>, ghost j: Journal)
    modifies client, reader
    ensures Accounted(client, old(client.cluster), old(client.calls),
                      Intended(nonInteractive, options, old(reader.lines), j.Planned()), j, drift, error)
    ensures AsReplied(nonInteractive, options, old(reader.lines), client, old(client.calls), j, drift, error)
    ensures error.None? || j != NO_JOURNAL ==> Faithful(j, options, client.templates, old(client.cluster))
    ensures error == Some(InputEnded) ==> !Answered(nonInteractive, options, old(reader.lines), j.Planned())
    ensures error.None? && j.Planned() != [] ==> Answered(nonInteractive, options, old(reader.lines), j.Planned())
    ensures error.Some? && j.Planned() != [] ==> error.value.CallFailed? || error.value.InputEnded? || options.verify
    ensures nonInteractive || j.Planned() == [] ==> reader.lines == old(reader.lines)
    ensures error.None? && !drift && (options.verify || j.Planned() == []) ==>
              SeenInSync(options, client.templates, client.cluster)
    ensures Ideal(j, options, old(client.cluster), client.stores) ==> Reconciles(j, options, client, drift, error)
  {
    hide Compared, IsPlanFor, Of, Ordered, Did, Ideal, Executable, CallsFor, Run, Accounted, Reconciles, SeenInSync,
      SeenDrifting, Chosen, Changeset.Valid, Changeset.Blank, Ask, Decisions, Offer, Faithful, AsReplied;
    ghost var cluster, calls, lines := client.cluster, client.calls, reader.lines;
    j := NO_JOURNAL;
    var changeset;
    ghost var ts, ps, plan;
    drift, changeset, error, ts, ps, plan := CalculateChangeset(options, client);
    NothingDone(client, options, drift, error);
    NothingIntended(nonInteractive, options, lines);
    if error.Some? {
      DoneAsReplied(nonInteractive, options, lines, client, cluster, calls, j, drift, error);
      return;
    }
    j := Journal(ts, ps, plan, changeset.delete, changeset.create, changeset.update, []);
    ComparisonIsFaithful(changeset, options, client, j, drift);
    if !drift {
      DoneAsReplied(nonInteractive, options, lines, client, cluster, calls, j, drift, error);
      return;
    }
    var allowSelecting := !options.verify && !changeset.ExactlyOne();
    assert allowSelecting == SelectingAllowed(options, j.Planned());
    OfferedOnly(allowSelecting, lines);
    ghost var made, intended := [], Intended(nonInteractive, options, lines, j.Planned());
    var answer := "y";
    if !nonInteractive {
      var choice := AskForAction(Offer(allowSelecting), reader);
      if choice.None? {
        error := Some(InputEnded);
        DidNothing(client);
        DidNoMore(client, cluster, calls, []);
        DidIsAccounted(client, cluster, calls, intended, j, drift, error);
        ReconciledIfComplete(client, cluster, calls, intended, j, options, drift, error);
        DoneAsReplied(nonInteractive, options, lines, client, cluster, calls, j, drift, error);
        return;
      }
      answer := choice.value;
    }
    if answer == "y" {
      error, made := ApplyAll(changeset, client);
      StillFaithful(j, made, options, client.templates, cluster);
      j := j.(made := made);
      drift := error.Some?;
      DidIsAccounted(client, cluster, calls, intended, j, drift, error);
      if error.None? && options.verify {
        VerificationFindsNoDrift(client, cluster, calls, j, options);
        error := PerformVerification(options, client);
        drift := error.Some?;
        if error.Some? { VerificationIsAccounted(client, cluster, calls, j, error); }
      }
    } else if allowSelecting && answer == "s" {
      drift, error, made := SelectAndApply(changeset, reader, client);
      StillFaithful(j, made, options, client.templates, cluster);
      j := j.(made := made);
      DidIsAccounted(client, cluster, calls, intended, j, drift, error);
    } else {
      drift := true;
      DidNothing(client);
      DidIsAccounted(client, cluster, calls, intended, j, drift, error);
    }
    ReconciledIfComplete(client, cluster, calls, intended, j, options, drift, error);
    DoneAsReplied(nonInteractive, options, lines, client, cluster, calls, j, drift, error);
  }

  lemma NothingIntended(nonInteractive: bool, options: CompareOptions, lines: seq<string>)
    ensures Intended(nonInteractive, options, lines, []) == []
  {
    hide Ask, Decisions;
  }

  lemma NothingDone(client: OcClient, options: CompareOptions, drift: bool, error: Option<Problem>)
    requires error.Some? ==>
               !drift && !error.value.CallFailed? && !error.value.VerificationFailed? && !error.value.InputEnded?
    ensures NO_JOURNAL.Planned() == []
    ensures error.Some? ==> Accounted(client, client.cluster, client.calls, [], NO_JOURNAL, drift, error)
    ensures error.Some? ==> Reconciles(NO_JOURNAL, options, client, drift, error)
  {
    DidNothing(client);
  }

  /** The journal of a comparison, before anything is executed. */
  lemma ComparisonIsFaithful(changeset: Changeset, options: CompareOptions, client: OcClient, j: Journal, drift: bool)
    requires changeset.Valid() && changeset.added == j.plan.All() && drift == !changeset.Blank()
    requires Compared(j.ts, j.ps, client.templates, client.cluster) && IsPlanFor(options, j.ts, j.ps, j.plan)
    requires j.deletes == changeset.delete && j.creates == changeset.create && j.updates == changeset.update
    requires j.made == []
    ensures Faithful(j, options, client.templates, client.cluster)
    ensures Executable(j.deletes, true) && Executable(j.creates, false) && Executable(j.updates, false)
    ensures drift <==> j.Planned() != []
    ensures !drift ==> Accounted(client, client.cluster, client.calls, [], j, drift, None)
    ensures !drift ==> SeenInSync(options, client.templates, client.cluster)
    ensures Ideal(j, options, client.cluster, client.stores) && !drift ==> Reconciles(j, options, client, drift, None)
  {
    hide Compared, IsPlanFor, Of, Ordered, Executable, Ideal, InSyncWith, CallsFor, Run, IsPlan, Visible, DescribedBy;
    PlanIsExecutable(j, options, client.templates, client.cluster);
    BlankMeans(changeset);
    if !drift {
      DidNothing(client);
      DidIsAccounted(client, client.cluster, client.calls, [], j, drift, None);
      ReconciledIfComplete(client, client.cluster, client.calls, [], j, options, drift, None);
    }
  }

  // ---- the order of the calls ----

  function Phase(c: Change): nat {
    match c.action case Delete => 0 case Create => 1 case Update => 2 case Noop => 3
  }

  /** Deletions come first, in descending order of kinds; then creations and then updates, in ascending order. */
  predicate Precedes(a: Change, b: Change) {
    Phase(a) < Phase(b) ||
    (Phase(a) == Phase(b) &&
     if a.action == Action.Delete then KindRank(a.kind) >= KindRank(b.kind) else KindRank(a.kind) <= KindRank(b.kind))
  }

  ghost predicate InOrder(s: seq<Change>) {
    forall x, y :: 0 <= x < y < |s| ==> Precedes(s[x], s[y])
  }

  lemma {:induction false} SomeInOrder(a: seq<Change>, b: seq<Change>)
    requires SomeOf(a, b) && InOrder(b)
    ensures InOrder(a)
    decreases |b|
  {
    hide Precedes;
    if b != [] {
      var init := b[..|b| - 1];
      assert InOrder(init);
      if SomeOf(a, init) {
        SomeInOrder(a, init);
      } else {
        var front := a[..|a| - 1];
        SomeInOrder(front, init);
        forall x, y | 0 <= x < y < |a| ensures Precedes(a[x], a[y]) {
          if y < |a| - 1 {
            assert Precedes(front[x], front[y]);
          } else {
            SomeOfAll(front, init);
            assert a[x] == front[x] && front[x] in init;
            var k :| 0 <= k < |init| && init[k] == a[x];
            assert Precedes(b[k], b[|b| - 1]);
          }
        }
      }
    }
  }

  lemma PlannedInOrder(j: Journal, options: CompareOptions, templates: seq<Json>, cluster: Cluster.State)
    requires Faithful(j, options, templates, cluster)
    ensures InOrder(j.Planned())
  {
    hide Compared, IsPlanFor, Of, KindRank;
    SameMembers(j.deletes, Of(Action.Delete, j.plan.All()));
    SameMembers(j.creates, Of(Create, j.plan.All()));
    SameMembers(j.updates, Of(Update, j.plan.All()));
    forall c ensures c in j.deletes ==> c.action == Action.Delete { OfMeaning(Action.Delete, j.plan.All(), c); }
    forall c ensures c in j.creates ==> c.action == Create { OfMeaning(Create, j.plan.All(), c); }
    forall c ensures c in j.updates ==> c.action == Update { OfMeaning(Update, j.plan.All(), c); }
    var d, e := |j.deletes|, |j.deletes + j.creates|;
    forall x, y | 0 <= x < y < |j.Planned()| ensures Precedes(j.Planned()[x], j.Planned()[y]) {
      assert j.Planned()[x] == if x < d then j.deletes[x] else if x < e then j.creates[x - d] else j.updates[x - e];
      assert j.Planned()[y] == if y < d then j.deletes[y] else if y < e then j.creates[y - d] else j.updates[y - e];
    }
  }

  lemma InOrderAt(s: seq<Change>)
    requires InOrder(s)
    ensures forall x, y :: 0 <= x < y < |s| ==> Precedes(s[x], s[y])
  {
  }

  lemma PrefixInOrder(made: seq<Change>, intended: seq<Change>, planned: seq<Change>)
    requires made <= intended && SomeOf(intended, planned) && InOrder(planned)
    ensures InOrder(made)
  {
    hide Precedes;
    SomeInOrder(intended, planned);
    assert forall x :: 0 <= x < |made| ==> made[x] == intended[x];
  }

  /** Whatever a run executes, it executes in order; in particular a recreated resource is deleted before it
      is created. */
  lemma RunInOrder(nonInteractive: bool, lines: seq<string>, j: Journal, options: CompareOptions, templates: seq<Json>,
                   cluster: Cluster.State)
    requires Faithful(j, options, templates, cluster)
    requires j.made <= Intended(nonInteractive, options, lines, j.Planned())
    ensures InOrder(j.made)
    ensures forall i, x, y :: (0 <= i < |j.plan.compared| && |j.plan.compared[i]| == 2
                               && 0 <= x < |j.made| && 0 <= y < |j.made|
                               && j.made[x] == j.plan.compared[i][0] && j.made[y] == j.plan.compared[i][1]) ==> x < y
  {
    hide Compared, Of, Ordered, SomeOf, IsPlan, KindRank, InOrder, Intended;
    PlannedInOrder(j, options, templates, cluster);
    IntendedIsSome(nonInteractive, options, lines, j.Planned());
    PrefixInOrder(j.made, Intended(nonInteractive, options, lines, j.Planned()), j.Planned());
    InOrderAt(j.made);
    PlanCovers(j, options);
    forall i, x, y | 0 <= i < |j.plan.compared| && |j.plan.compared[i]| == 2 && 0 <= x < |j.made| && 0 <= y < |j.made|
                     && j.made[x] == j.plan.compared[i][0] && j.made[y] == j.plan.compared[i][1]
      ensures x < y
    {
      RecreatedResourcesReturn(j.ts, j.ps, UniqueKeys(j.ts), options.upsertOnly, options.allowRecreate,
                               options.Arguments(), j.plan, i);
      OfMeaning(Action.Delete, j.plan.All(), j.made[x]);
      OfMeaning(Create, j.plan.All(), j.made[y]);
      assert !Precedes(j.made[y], j.made[x]);
    }
  }
}
