/** The plan for all resources (pkg/openshift/changeset.go). */
module Changesets {
  import opened Changes

  // ---- order of changes ----

  /** The rank of a kind in the table that changes are ordered by. What is not in the table comes before all that is. */
  function KindRank(kind: string): nat {
    if kind == "Template" then 1
    else if kind == "ServiceAccount" then 2
    else if kind == "RoleBinding" then 3
    else if kind == "ConfigMap" then 4
    else if kind == "Secret" then 5
    else if kind == "LimitRange" then 6
    else if kind == "ResourceQuota" then 7
    else if kind == "PersistentVolumeClaim" then 8
    else if kind == "CronJob" then 9
    else if kind == "Job" then 10
    else if kind == "ImageStream" then 11
    else if kind == "BuildConfig" then 12
    else if kind == "StatefulSet" then 13
    else if kind == "DeploymentConfig" then 14
    else if kind == "Deployment" then 15
    else if kind == "HorizontalPodAutoscaler" then 16
    else if kind == "Service" then 17
    else if kind == "Route" then 18
    else 0
  }

  /** The kinds in the order in which they are created. */
  const CREATION_ORDER: seq<string> := [
    "Template", "ServiceAccount", "RoleBinding", "ConfigMap", "Secret", "LimitRange", "ResourceQuota",
    "PersistentVolumeClaim", "CronJob", "Job", "ImageStream", "BuildConfig", "StatefulSet", "DeploymentConfig",
    "Deployment", "HorizontalPodAutoscaler", "Service", "Route"
  ]

  lemma RanksAscend(i: nat)
    requires i < |CREATION_ORDER|
    ensures KindRank(CREATION_ORDER[i]) == i + 1
  {
  }

  lemma UnrankedKind(kind: string)
    requires kind !in CREATION_ORDER
    ensures KindRank(kind) == 0
  {
  }

  /** One kind ranks before another if it is listed before it, or if only the other one is listed. */
  lemma RanksBefore(a: string, b: string)
    ensures KindRank(a) < KindRank(b) <==>
            || (exists i, j :: 0 <= i < j < |CREATION_ORDER| && CREATION_ORDER[i] == a && CREATION_ORDER[j] == b)
            || (a !in CREATION_ORDER && b in CREATION_ORDER)
  {
    hide KindRank, CREATION_ORDER;
    forall i | 0 <= i < |CREATION_ORDER| ensures KindRank(CREATION_ORDER[i]) == i + 1 { RanksAscend(i); }
    if a !in CREATION_ORDER { UnrankedKind(a); }
    if b !in CREATION_ORDER { UnrankedKind(b); }
  }

  function Weight(c: Change, descending: bool): int {
    var rank: int := KindRank(c.kind);
    if descending then -rank else rank
  }

  /** Ordered by kind: in ascending, or in descending order. */
  ghost predicate Ordered(s: seq<Change>, descending: bool) {
    forall i, j :: 0 <= i < j < |s| ==> Weight(s[i], descending) <= Weight(s[j], descending)
  }

  /** sort.Slice by kind: some ordered arrangement of the same changes; equal kinds come in any order. */
  method SortByKind(s: seq<Change>, descending: bool) returns (r: seq<Change>)
    ensures multiset(r) == multiset(s) && Ordered(r, descending)
    ensures forall i, j :: 0 <= i < j < |r| ==>
                             if descending then KindRank(r[i].kind) >= KindRank(r[j].kind)
                             else KindRank(r[i].kind) <= KindRank(r[j].kind)
  {
    hide KindRank;
    r := [];
    for i := 0 to |s|
      invariant multiset(r) == multiset(s[..i]) && Ordered(r, descending)
    {
      assert s[..i + 1] == s[..i] + [s[i]];
      r := Insert(r, s[i], descending);
    }
    assert s[..|s|] == s;
  }

  method Insert(s: seq<Change>, c: Change, descending: bool) returns (r: seq<Change>)
    requires Ordered(s, descending)
    ensures multiset(r) == multiset(s) + multiset{c} && Ordered(r, descending)
  {
    hide Weight;
    var k := |s|;
    while k > 0 && Weight(s[k - 1], descending) > Weight(c, descending)
      invariant 0 <= k <= |s|
      invariant forall j :: k <= j < |s| ==> Weight(s[j], descending) > Weight(c, descending)
    {
      k := k - 1;
    }
    InsertAt(s, c, descending, k);
    r := s[..k] + [c] + s[k..];
  }

  lemma InsertAt(s: seq<Change>, c: Change, descending: bool, k: nat)
    requires k <= |s| && Ordered(s, descending)
    requires k > 0 ==> Weight(s[k - 1], descending) <= Weight(c, descending)
    requires forall j :: k <= j < |s| ==> Weight(s[j], descending) > Weight(c, descending)
    ensures var r := s[..k] + [c] + s[k..];
            multiset(r) == multiset(s) + multiset{c} && Ordered(r, descending)
  {
    hide Weight;
    InsertedMembers(s, c, k);
    forall i, j | 0 <= i < j <= |s|
      ensures Weight((s[..k] + [c] + s[k..])[i], descending) <= Weight((s[..k] + [c] + s[k..])[j], descending)
    {
      InsertedPair(s, c, descending, k, i, j);
    }
  }

  lemma InsertedMembers(s: seq<Change>, c: Change, k: nat)
    requires k <= |s|
    ensures multiset(s[..k] + [c] + s[k..]) == multiset(s) + multiset{c}
  {
    assert s == s[..k] + s[k..];
  }

  lemma InsertedPair(s: seq<Change>, c: Change, descending: bool, k: nat, i: nat, j: nat)
    requires k <= |s| && Ordered(s, descending)
    requires k > 0 ==> Weight(s[k - 1], descending) <= Weight(c, descending)
    requires forall j :: k <= j < |s| ==> Weight(s[j], descending) > Weight(c, descending)
    requires i < j <= |s|
    ensures Weight((s[..k] + [c] + s[k..])[i], descending) <= Weight((s[..k] + [c] + s[k..])[j], descending)
  {
    hide Weight;
    var r := s[..k] + [c] + s[k..];
    var x := if i < k then s[i] else if i == k then c else s[i - 1];
    var y := if j < k then s[j] else if j == k then c else s[j - 1];
    assert r[i] == x && r[j] == y;
    if i < k && j == k { assert i == k - 1 || Weight(s[i], descending) <= Weight(s[k - 1], descending); }
  }

  /** The changes with one action, in order. */
  function Of(action: Action, changes: seq<Change>): seq<Change> {
    if changes == [] then []
    else
      var init, last := Of(action, changes[..|changes| - 1]), changes[|changes| - 1];
      if last.action == action then init + [last] else init
  }

  lemma OfNext(action: Action, changes: seq<Change>, c: Change)
    ensures Of(action, changes + [c]) == if c.action == action then Of(action, changes) + [c] else Of(action, changes)
  {
    assert (changes + [c])[..|changes|] == changes;
  }

  lemma {:induction false} OfConcat(action: Action, a: seq<Change>, b: seq<Change>)
    ensures Of(action, a + b) == Of(action, a) + Of(action, b)
  {
    if b == [] {
      assert a + b == a;
    } else {
      assert (a + b)[..|a + b| - 1] == a + b[..|b| - 1];
      OfConcat(action, a, b[..|b| - 1]);
    }
  }

  class Changeset {
    var create: seq<Change>
    var update: seq<Change>
    var delete: seq<Change>
    var noop: seq<Change>
    ghost var added: seq<Change>

    /** Each list holds exactly the added changes with its action; creations and updates come in ascending,
        deletions in descending order of kinds. */
    ghost predicate Valid()
      reads this
    {
      && multiset(create) == multiset(Of(Create, added)) && Ordered(create, false)
      && multiset(update) == multiset(Of(Update, added)) && Ordered(update, false)
      && multiset(delete) == multiset(Of(Delete, added)) && Ordered(delete, true)
      && noop == Of(Noop, added)
    }

    constructor ()
      ensures Valid() && added == []
    {
      create, update, delete, noop := [], [], [], [];
      added := [];
    }

    predicate Blank()
      reads this
    {
      |create| == 0 && |update| == 0 && |delete| == 0
    }

    predicate ExactlyOne()
      reads this
    {
      |create| + |update| + |delete| == 1
    }

    method Add(changes: seq<Change>)
      requires Valid()
      modifies this
      ensures Valid() && added == old(added) + changes
    {
      for i := 0 to |changes|
        invariant Valid() && added == old(added) + changes[..i]
      {
        AddOne(changes[i]);
        assert changes[..i + 1] == changes[..i] + [changes[i]];
      }
      assert changes[..|changes|] == changes;
    }

    method AddOne(change: Change)
      requires Valid()
      modifies this
      ensures Valid() && added == old(added) + [change]
    {
      hide Ordered, Of;
      OfNext(Create, added, change);
      OfNext(Update, added, change);
      OfNext(Delete, added, change);
      OfNext(Noop, added, change);
      match change.action {
        case Create =>
          create := SortByKind(create + [change], false);
        case Update =>
          update := SortByKind(update + [change], false);
        case Delete =>
          delete := SortByKind(delete + [change], true);
        case Noop =>
          noop := noop + [change];
      }
      added := added + [change];
    }
  }
}
