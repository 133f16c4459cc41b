/** The client for the platform, and the execution of changes with it (pkg/commands/apply.go). */
module Executing {
  import opened Wrappers
  import opened Documents
  import opened Items
  import opened Changes
  import opened Changesets
  import opened Cluster
  import opened Reconciled
  import opened Asking

  datatype Problem =
    | FetchFailed
    | NotParsed(error: Error)
    | NothingDescribed
    | NotCompared(error: Error)
    | CallFailed(call: Call)
    | InputEnded
    | VerificationFailed

  // ---- the client ----

  /** The client for the platform. Any call may fail; a failing call may leave anything behind. */
  class OcClient {
    var cluster: Cluster.State
    /** All modifying calls made so far, failing ones included. */
    var calls: seq<Call>
    /** What processing the templates yields. */
    const templates: seq<Json>
    const stores: Storing

    constructor (cluster: Cluster.State, templates: seq<Json>, stores: Storing)
      ensures this.cluster == cluster && this.templates == templates && this.stores == stores && calls == []
    {
      this.cluster, this.templates, this.stores, calls := cluster, templates, stores, [];
    }

    method Delete(kind: string, name: string) returns (ok: bool)
      modifies this
      ensures calls == old(calls) + [DeleteCall(Key(kind, name))]
      ensures ok ==> cluster == Step(old(cluster), DeleteCall(Key(kind, name)), |old(calls)|, stores)
    {
      calls := calls + [DeleteCall(Key(kind, name))];
      ok := *;
      if ok {
        cluster := cluster - {Key(kind, name)};
      } else {
        cluster := *;
      }
    }

    method Apply(config: Json) returns (ok: bool)
      modifies this
      ensures calls == old(calls) + [ApplyCall(config)]
      ensures ok ==> cluster == Step(old(cluster), ApplyCall(config), |old(calls)|, stores)
    {
      var n := |calls|;
      calls := calls + [ApplyCall(config)];
      ok := *;
      if ok {
        var key := KeyOf(config);
        if key.Some? {
          cluster := cluster[key.value := stores(n, config)];
        }
      } else {
        cluster := *;
      }
    }
  }

  method OcDelete(change: Change, client: OcClient) returns (error: Option<Problem>)
    requires change.action == Action.Delete
    modifies client
    ensures CallFor(change) == DeleteCall(Key(change.kind, change.name))
    ensures client.calls == old(client.calls) + [CallFor(change)]
    ensures error == None || error == Some(CallFailed(CallFor(change)))
    ensures error.None? ==>
              client.cluster == Step(old(client.cluster), CallFor(change), |old(client.calls)|, client.stores)
  {
    var ok := client.Delete(change.kind, change.name);
    return if ok then None else Some(CallFailed(DeleteCall(Key(change.kind, change.name))));
  }

  method OcApply(change: Change, client: OcClient) returns (error: Option<Problem>)
    requires change.action != Action.Delete && change.desired.Yaml?
    modifies client
    ensures CallFor(change) == ApplyCall(change.desired.config)
    ensures client.calls == old(client.calls) + [CallFor(change)]
    ensures error == None || error == Some(CallFailed(CallFor(change)))
    ensures error.None? ==>
              client.cluster == Step(old(client.cluster), CallFor(change), |old(client.calls)|, client.stores)
  {
    var ok := client.Apply(change.desired.config);
    return if ok then None else Some(CallFailed(ApplyCall(change.desired.config)));
  }

  // ---- executing changes ----

  /** The changes can be handed to the client: all of them to be deleted, or all with a desired state. */
  predicate Executable(changes: seq<Change>, deleting: bool) {
    forall i :: 0 <= i < |changes| ==>
                  if deleting then changes[i].action == Action.Delete
                  else changes[i].action != Action.Delete && changes[i].desired.Yaml?
  }

  /** Some of the changes, in the same order. */
  ghost predicate SomeOf(a: seq<Change>, b: seq<Change>) {
    if b == [] then a == []
    else
      var init, last := b[..|b| - 1], b[|b| - 1];
      SomeOf(a, init) || (a != [] && a[|a| - 1] == last && SomeOf(a[..|a| - 1], init))
  }

  /** What the client did since it made `calls` on `cluster`: it made the calls for the changes in `made`, and,
      unless it failed at the last one, all of them succeeded; also where the program gave up afterwards, because
      the input ended. */
  ghost predicate Did(client: OcClient, cluster: Cluster.State, calls: seq<Call>, made: seq<Change>,
                      error: Option<Problem>)
    reads client
  {
    && client.calls == calls + CallsFor(made)
    && if error.None? || error.value.InputEnded? then
         client.cluster == Run(cluster, CallsFor(made), |calls|, client.stores)
       else made != [] && error.value == CallFailed(CallFor(made[|made| - 1]))
  }

  lemma CallsNext(made: seq<Change>, c: Change)
    ensures CallsFor(made + [c]) == CallsFor(made) + [CallFor(c)]
  {
  }

  lemma CallsConcat(a: seq<Change>, b: seq<Change>)
    ensures CallsFor(a + b) == CallsFor(a) + CallsFor(b)
  {
  }

  /** The next call, after some that succeeded. */
  lemma DidNext(client: OcClient, cluster: Cluster.State, calls: seq<Call>, made: seq<Change>, c: Change,
                error: Option<Problem>)
    requires client.calls == calls + CallsFor(made) + [CallFor(c)]
    requires error == None || error == Some(CallFailed(CallFor(c)))
    requires error.None? ==>
               client.cluster == Step(Run(cluster, CallsFor(made), |calls|, client.stores), CallFor(c),
                                      |calls + CallsFor(made)|, client.stores)
    ensures Did(client, cluster, calls, made + [c], error)
  {
    hide Run, Step, CallFor;
    CallsNext(made, c);
    RunNext(cluster, CallsFor(made), CallFor(c), |calls|, client.stores);
    assert calls + CallsFor(made + [c]) == calls + CallsFor(made) + [CallFor(c)];
  }

  method Handle(change: Change, deleting: bool, client: OcClient) returns (error: Option<Problem>)
    requires Executable([change], deleting)
    modifies client
    ensures client.calls == old(client.calls) + [CallFor(change)]
    ensures error == None || error == Some(CallFailed(CallFor(change)))
    ensures error.None? ==>
              client.cluster == Step(old(client.cluster), CallFor(change), |old(client.calls)|, client.stores)
  {
    hide Step, CallFor;
    assert [change][0] == change;
    if deleting {
      error := OcDelete(change, client);
    } else {
      error := OcApply(change, client);
    }
  }

  /** Executes the changes in order, up to the first failure. */
  method ApplyEach(changes: seq<Change>, deleting: bool, client: OcClient)
    returns (error: Option<Problem>, ghost made: seq<Change>)
    requires Executable(changes, deleting)
    modifies client
    ensures made <= changes && (error.None? ==> made == changes)
    ensures error.Some? ==> error.value.CallFailed?
    ensures Did(client, old(client.cluster), old(client.calls), made, error)
  {
    hide Step, Run, CallFor, CallsFor, Did;
    ghost var cluster, calls := client.cluster, client.calls;
    made := [];
    DidNothing(client);
    for i := 0 to |changes|
      invariant made == changes[..i] && Did(client, cluster, calls, made, None)
    {
      SoFar(client, cluster, calls, made);
      error := Handle(changes[i], deleting, client);
      DidNext(client, cluster, calls, made, changes[i], error);
      made := made + [changes[i]];
      if error.Some? {
        return;
      }
    }
    error := None;
  }

  lemma DidNothing(client: OcClient)
    ensures Did(client, client.cluster, client.calls, [], None)
  {
    assert CallsFor([]) == [];
    assert client.calls + [] == client.calls;
  }

  // ---- all changes ----

  lemma {:induction false} SomeOfSame(a: seq<Change>)
    ensures SomeOf(a, a) && SomeOf([], a)
  {
    if a != [] { SomeOfSame(a[..|a| - 1]); }
  }

  lemma {:induction false} SomeOfAll(a: seq<Change>, b: seq<Change>)
    requires SomeOf(a, b)
    ensures |a| <= |b| && (|a| == |b| ==> a == b)
    ensures forall x :: x in a ==> x in b
    decreases |b|
  {
    if b != [] {
      var init := b[..|b| - 1];
      assert b == init + [b[|b| - 1]];
      if SomeOf(a, init) {
        SomeOfAll(a, init);
      } else {
        SomeOfAll(a[..|a| - 1], init);
        assert a == a[..|a| - 1] + [a[|a| - 1]];
      }
    }
  }

  /** A part that was executed after another one. */
  lemma DidThen(client: OcClient, cluster: Cluster.State, calls: seq<Call>, made: seq<Change>, more: seq<Change>,
                error: Option<Problem>)
    requires Did(client, Run(cluster, CallsFor(made), |calls|, client.stores), calls + CallsFor(made), more, error)
    ensures Did(client, cluster, calls, made + more, error)
  {
    hide Run, CallFor, CallsFor;
    CallsConcat(made, more);
    RunConcat(cluster, CallsFor(made), CallsFor(more), |calls|, client.stores);
    assert calls + CallsFor(made) + CallsFor(more) == calls + (CallsFor(made) + CallsFor(more));
  }

  /** Executes all changes: first deletions, then creations, then updates. */
  method ApplyAll(changeset: Changeset, client: OcClient) returns (error: Option<Problem>, ghost made: seq<Change>)
    requires Executable(changeset.delete, true) && Executable(changeset.create, false)
    requires Executable(changeset.update, false)
    modifies client
    ensures made <= changeset.delete + changeset.create + changeset.update
    ensures error.None? ==> made == changeset.delete + changeset.create + changeset.update
    ensures error.Some? ==> error.value.CallFailed?
    ensures Did(client, old(client.cluster), old(client.calls), made, error)
  {
    hide Did, Executable, Run;
    ghost var cluster, calls := client.cluster, client.calls;
    error, made := ApplyEach(changeset.delete, true, client);
    if error.Some? {
      return;
    }
    SoFar(client, cluster, calls, made);
    ghost var more;
    error, more := ApplyEach(changeset.create, false, client);
    DidThen(client, cluster, calls, made, more, error);
    made := made + more;
    if error.Some? {
      return;
    }
    SoFar(client, cluster, calls, made);
    error, more := ApplyEach(changeset.update, false, client);
    DidThen(client, cluster, calls, made, more, error);
    made := made + more;
  }

  lemma SoFar(client: OcClient, cluster: Cluster.State, calls: seq<Call>, made: seq<Change>)
    requires Did(client, cluster, calls, made, None)
    ensures client.cluster == Run(cluster, CallsFor(made), |calls|, client.stores)
    ensures client.calls == calls + CallsFor(made)
  {
  }

  /** The changes that the user agrees to: decisions[k] is the decision about the k-th planned change, and the
      changes are the planned ones from offset on. Without a decision, a change is not executed. */
  function Chosen(changes: seq<Change>, offset: nat, decisions: seq<bool>): (r: seq<Change>)
    ensures |r| <= |changes|
    ensures |r| == |changes| ==> r == changes
  {
    if changes == [] then []
    else
      var n := |changes| - 1;
      Chosen(changes[..n], offset, decisions) + if Agreed(decisions, offset + n) then [changes[n]] else []
  }

  predicate Agreed(decisions: seq<bool>, k: nat) {
    k < |decisions| && decisions[k]
  }

  lemma ChosenNext(changes: seq<Change>, offset: nat, decisions: seq<bool>, i: nat)
    requires i < |changes|
    ensures Chosen(changes[..i + 1], offset, decisions) ==
            Chosen(changes[..i], offset, decisions) + if Agreed(decisions, offset + i) then [changes[i]] else []
  {
    assert changes[..i + 1][..i] == changes[..i];
  }

  lemma {:induction false} ChosenConcat(a: seq<Change>, b: seq<Change>, offset: nat, decisions: seq<bool>)
    ensures Chosen(a + b, offset, decisions) == Chosen(a, offset, decisions) + Chosen(b, offset + |a|, decisions)
    decreases |b|
  {
    hide Agreed;
    if b == [] {
      assert a + b == a;
    } else {
      var n := |b| - 1;
      assert (a + b)[..|a + b| - 1] == a + b[..n];
      ChosenConcat(a, b[..n], offset, decisions);
    }
  }

  /** The chosen ones among the first i changes come first. */
  lemma ChosenPrefix(changes: seq<Change>, offset: nat, decisions: seq<bool>, i: nat)
    requires i <= |changes|
    ensures Chosen(changes[..i], offset, decisions) <= Chosen(changes, offset, decisions)
  {
    ChosenConcat(changes[..i], changes[i..], offset, decisions);
    assert changes == changes[..i] + changes[i..];
  }

  /** Beyond the last decision, nothing is chosen. */
  lemma {:induction false} NothingChosenBeyond(changes: seq<Change>, offset: nat, decisions: seq<bool>)
    requires |decisions| <= offset
    ensures Chosen(changes, offset, decisions) == []
  {
    if changes != [] { NothingChosenBeyond(changes[..|changes| - 1], offset, decisions); }
  }

  lemma ChosenUpTo(changes: seq<Change>, offset: nat, decisions: seq<bool>, i: nat)
    requires i <= |changes| && |decisions| <= offset + i
    ensures Chosen(changes[..i], offset, decisions) == Chosen(changes, offset, decisions)
  {
    ChosenConcat(changes[..i], changes[i..], offset, decisions);
    NothingChosenBeyond(changes[i..], offset + i, decisions);
    assert changes == changes[..i] + changes[i..];
  }

  lemma {:induction false} ChosenIsSome(changes: seq<Change>, offset: nat, decisions: seq<bool>)
    ensures SomeOf(Chosen(changes, offset, decisions), changes)
  {
    hide Agreed;
    if changes != [] {
      var n := |changes| - 1;
      ChosenIsSome(changes[..n], offset, decisions);
      var c := Chosen(changes[..n], offset, decisions);
      assert (c + [changes[n]])[..|c|] == c && c + [] == c;
    }
  }

  /** Asks for every change whether to execute it, up to the first failure. The decisions about these changes
      are the next ones in the input. */
  method AskAndApply(changes: seq<Change>, ghost offset: nat, ghost decisions: seq<bool>, reader: Reader,
                     deleting: bool, client: OcClient)
    returns (skipped: bool, error: Option<Problem>, ghost made: seq<Change>)
    requires Executable(changes, deleting) && offset <= |decisions| && Decisions(reader.lines) == decisions[offset..]
    modifies client, reader
    ensures made <= Chosen(changes, offset, decisions)
    ensures error.None? ==>
              && made == Chosen(changes, offset, decisions) && (skipped <==> made != changes)
              && offset + |changes| <= |decisions| && Decisions(reader.lines) == decisions[offset + |changes|..]
    ensures error.Some? ==> error.value.CallFailed? || error.value.InputEnded?
    ensures error == Some(InputEnded) ==>
              made == Chosen(changes, offset, decisions) && |decisions| < offset + |changes|
    ensures Did(client, old(client.cluster), old(client.calls), made, error)
  {
    hide Step, Run, CallFor, CallsFor, Did, Chosen, Decisions, Agreed, Offer, Ask, Reply;
    ghost var cluster, calls := client.cluster, client.calls;
    skipped, made := false, [];
    DidNothing(client);
    NothingChosen(changes, offset, decisions);
    for i := 0 to |changes|
      invariant made == Chosen(changes[..i], offset, decisions) && Did(client, cluster, calls, made, None)
      invariant if skipped then |made| < i else made == changes[..i]
      invariant offset + i <= |decisions| && Decisions(reader.lines) == decisions[offset + i..]
    {
      ChosenNext(changes, offset, decisions, i);
      ChosenPrefix(changes, offset, decisions, i + 1);
      AskDecides(reader.lines);
      var choice := AskForAction(Offer(false), reader);
      if choice.None? {
        ChosenUpTo(changes, offset, decisions, i);
        DidNoMore(client, cluster, calls, made);
        return true, Some(InputEnded), made;
      }
      TakeDecision(decisions, offset + i, choice.value == "y", Decisions(reader.lines));
      if choice.value == "y" {
        SoFar(client, cluster, calls, made);
        error := Handle(changes[i], deleting, client);
        DidNext(client, cluster, calls, made, changes[i], error);
        made := made + [changes[i]];
        if error.Some? {
          return true, error, made;
        }
      } else {
        skipped := true;
      }
    }
    assert changes[..|changes|] == changes;
    error := None;
  }

  lemma TakeDecision(decisions: seq<bool>, k: nat, decision: bool, others: seq<bool>)
    requires k <= |decisions| && decisions[k..] == [decision] + others
    ensures k < |decisions| && Agreed(decisions, k) == decision && others == decisions[k + 1..]
  {
    assert decisions[k..][0] == decision && decisions[k..][1..] == others;
  }

  lemma DidNoMore(client: OcClient, cluster: Cluster.State, calls: seq<Call>, made: seq<Change>)
    requires Did(client, cluster, calls, made, None)
    ensures Did(client, cluster, calls, made, Some(InputEnded))
  {
  }

  lemma NothingChosen(changes: seq<Change>, offset: nat, decisions: seq<bool>)
    ensures Chosen(changes[..0], offset, decisions) == []
  {
  }

  /** Asks for every change, in the planned order. */
  method SelectAndApply(changeset: Changeset, reader: Reader, client: OcClient)
    returns (drift: bool, error: Option<Problem>, ghost made: seq<Change>)
    requires Executable(changeset.delete, true) && Executable(changeset.create, false)
    requires Executable(changeset.update, false)
    modifies client, reader
    ensures var planned, decisions := changeset.delete + changeset.create + changeset.update,
                                      old(Decisions(reader.lines));
            && made <= Chosen(planned, 0, decisions)
            && (error.None? ==> made == Chosen(planned, 0, decisions) && (drift <==> made != planned) &&
                                |planned| <= |decisions|)
            && (error == Some(InputEnded) ==> made == Chosen(planned, 0, decisions) && |decisions| < |planned|)
    ensures error.Some? ==> drift && (error.value.CallFailed? || error.value.InputEnded?)
    ensures Did(client, old(client.cluster), old(client.calls), made, error)
  {
    hide Did, Executable, Run, Chosen, Decisions;
    ghost var cluster, calls, decisions := client.cluster, client.calls, Decisions(reader.lines);
    assert decisions[0..] == decisions;
    var anyChangeSkipped := false;
    ghost var more, next;
    var skipped;
    ChosenParts(changeset.delete, changeset.create, changeset.update, decisions);
    skipped, error, made := AskAndApply(changeset.delete, 0, decisions, reader, true, client);
    if error.Some? {
      if error.value.InputEnded? {
        NothingChosenBeyond(changeset.create, |changeset.delete|, decisions);
        NothingChosenBeyond(changeset.update, |changeset.delete + changeset.create|, decisions);
      }
      return true, error, made;
    } else if skipped {
      anyChangeSkipped := true;
    }
    SoFar(client, cluster, calls, made);
    skipped, error, more := AskAndApply(changeset.create, |changeset.delete|, decisions, reader, false, client);
    DidThen(client, cluster, calls, made, more, error);
    if error.Some? {
      if error.value.InputEnded? {
        NothingChosenBeyond(changeset.update, |changeset.delete + changeset.create|, decisions);
      }
      return true, error, made + more;
    } else if skipped {
      anyChangeSkipped := true;
    }
    SoFar(client, cluster, calls, made + more);
    skipped, error, next := AskAndApply(changeset.update, |changeset.delete + changeset.create|, decisions, reader,
                                        false, client);
    DidThen(client, cluster, calls, made + more, next, error);
    if error.Some? {
      return true, error, made + more + next;
    } else if skipped {
      anyChangeSkipped := true;
    }
    return anyChangeSkipped, None, made + more + next;
  }

  lemma ChosenParts(a: seq<Change>, b: seq<Change>, c: seq<Change>, decisions: seq<bool>)
    ensures Chosen(a + b + c, 0, decisions) ==
            Chosen(a, 0, decisions) + Chosen(b, |a|, decisions) + Chosen(c, |a + b|, decisions)
    ensures Chosen(a + b + c, 0, decisions) == a + b + c <==>
            Chosen(a, 0, decisions) == a && Chosen(b, |a|, decisions) == b && Chosen(c, |a + b|, decisions) == c
  {
    hide Chosen;
    ChosenConcat(a + b, c, 0, decisions);
    ChosenConcat(a, b, 0, decisions);
    PartsAreWhole(Chosen(a, 0, decisions), a, Chosen(b, |a|, decisions), b, Chosen(c, |a + b|, decisions), c);
  }

  lemma PartsAreWhole(a: seq<Change>, a': seq<Change>, b: seq<Change>, b': seq<Change>, c: seq<Change>, c': seq<Change>)
    requires |a| <= |a'| && |b| <= |b'| && |c| <= |c'|
    requires (|a| == |a'| ==> a == a') && (|b| == |b'| ==> b == b') && (|c| == |c'| ==> c == c')
    ensures a + b + c == a' + b' + c' <==> a == a' && b == b' && c == c'
  {
    assert |a + b + c| == |a| + |b| + |c| && |a' + b' + c'| == |a'| + |b'| + |c'|;
  }
}
