/** What every comparison and every plan guarantees, in whatever order the documents are walked: preserved paths keep
    the platform's value, immutable fields are not changed silently, and robust pairs are merged. */
module Guarantees {
  import opened Wrappers
  import opened Text
  import opened Documents
  import opened Pointers
  import opened Merging
  import opened Walking
  import opened Preparing
  import opened Platform
  import opened Comparison
  import opened Loops
  import opened Items
  import opened Changes
  import opened Preserving
  import opened Planning
  import opened Laws
  import opened Hiding
  import opened Exactness
  import opened Convergence
  import opened Choices
  import opened Agreement
  import opened OneRun
  import opened Managed
  import opened Overlooked

  // ---- preserved paths ----

  /** What is dropped is not preserved. */
  lemma DroppedIsUnpreserved(t: Json, p: Json, rs: seq<string>, tw: seq<string>, n: nat, q: Position)
    requires n <= |tw| && DroppedAmong(t, p, rs, tw, n, q)
    ensures !AnyPrefix(rs, Enc(q))
  {
    hide Enc, PassedBy, AnyPrefix, Dropped;
  }

  lemma PreservedIsNotDropped(t: Json, p: Json, rs: seq<string>, tw: seq<string>, n: nat, i: nat, s: Position)
    requires n <= |tw| && i < |rs| && ProperPointer(rs[i])
    ensures !DroppedAmong(t, p, rs, tw, n, Dec(rs[i]) + s)
  {
    hide Enc, Dec, DroppedAmong;
    EncPrefixOfDescendant(Dec(rs[i]), Dec(rs[i]) + s);
    assert rs[i] <= Enc(Dec(rs[i]) + s);
    if DroppedAmong(t, p, rs, tw, n, Dec(rs[i]) + s) { DroppedIsUnpreserved(t, p, rs, tw, n, Dec(rs[i]) + s); }
  }

  /** The document in which a loop stops at an immutable field is the one after some of its paths. */
  lemma {:induction false} StoppedAfter(kind: string, t: Json, p: Json, rs: seq<string>, tw: seq<string>, n: nat)
    returns (m: nat)
    requires Lists(tw, t, p, rs) && DropsMembersOnly(t, p) && n <= |tw|
    requires TemplateLoop(kind, t, p, rs, tw[..n]).Mismatched?
    ensures m < n && DropsAre(t, p, rs, tw, m, TemplateLoop(kind, t, p, rs, tw[..n]).config)
  {
    hide Get, Lists, DropsMembersOnly, TemplateLoop, SeenAre, AddedAre, DropsAre, MismatchAmong;
    NothingLooped(kind, t, p, rs, tw);
    if TemplateLoop(kind, t, p, rs, tw[..n - 1]).Going? {
      m := n - 1;
      LoopExact(kind, t, p, rs, tw, m);
      TemplateLoopNext(kind, t, p, rs, tw, m);
      StepKeepsDocument(kind, p, rs, TemplateLoop(kind, t, p, rs, tw[..m]), tw[m]);
    } else {
      assert tw[..n][..n - 1] == tw[..n - 1];
      TemplateLoopStops(kind, t, p, rs, tw[..n], n - 1);
      m := StoppedAfter(kind, t, p, rs, tw, n - 1);
    }
  }

  lemma StepKeepsDocument(kind: string, p: Json, rs: seq<string>, s: Progress, path: string)
    requires s.Going?
    ensures var next := TemplateStep(kind, p, rs, s, path);
            next.Mismatched? ==> next.config == s.config
  {
    hide Get, Dec, AnyPrefix, ImmutableFields, Documents.Delete;
  }

  /** The template has at r what the platform has there, or nothing that could be set. */
  predicate Done(t: Json, p: Json, r: Position) {
    Get(t, r) == Get(p, r) || (!Has(t, r) && !Settable(t, r))
  }

  /** So far, a preserved position is as it was. */
  lemma PreservedAtStop(t: Json, p: Json, rs: seq<string>, tw: seq<string>, n: nat, d: Json, i: nat)
    requires n <= |tw| && DropsAre(t, p, rs, tw, n, d) && i < |rs| && ProperPointer(rs[i])
    ensures Get(d, Dec(rs[i])) == Get(t, Dec(rs[i]))
  {
    hide Enc, Dec, Get, DroppedAmong;
    forall s ensures LabelAt(d, Dec(rs[i]) + s) == LabelAt(t, Dec(rs[i]) + s) {
      PreservedIsNotDropped(t, p, rs, tw, n, i, s);
    }
    SameBelow(d, t, Dec(rs[i]));
  }

  /** And it is so in the end. */
  lemma PreservedAtEnd(t: Json, p: Json, rs: seq<string>, tw: seq<string>, pw: seq<string>, d: Json, i: nat)
    requires Walks(t, p, rs, tw, pw) && Final(t, p, rs, tw, pw, d)
    requires i < |rs| && ProperPointer(rs[i]) && Done(t, p, Dec(rs[i]))
    ensures Get(d, Dec(rs[i])) == Get(t, Dec(rs[i]))
  {
    hide Enc, Dec, Get, DroppedAmong, Taken, Walks, Done;
    var r := Dec(rs[i]);
    forall s ensures LabelAt(d, r + s) == LabelAt(t, r + s) {
      PreservedIsNotDropped(t, p, rs, tw, |tw|, i, s);
      if Taken(t, p, rs, tw, pw, |pw|, r + s) { CoveredIsSame(t, p, rs, tw, pw, r, s); }
    }
    SameBelow(d, t, r);
  }

  lemma CoveredIsSame(t: Json, p: Json, rs: seq<string>, tw: seq<string>, pw: seq<string>, r: Position, s: Position)
    requires Walks(t, p, rs, tw, pw) && Taken(t, p, rs, tw, pw, |pw|, r + s) && Done(t, p, r) && r != []
    ensures LabelAt(p, r + s) == LabelAt(t, r + s)
  {
    hide Enc, Dec, Get, Seen, ToldBefore, PlainAnnotations, Lists;
    if Get(t, r) == Get(p, r) {
      GetConcat(t, r, s);
      GetConcat(p, r, s);
    } else {
      BelowMissing(t, r, r + s);
      HasLabel(t, r + s);
      HasLabel(p, r + s);
      if Has(p, r + s) {
        var m :| 0 <= m < |pw| && Takes(t, p, rs, tw, pw, m) && Dec(pw[m]) <= r + s;
        PlatformPath(t, p, rs, tw, pw, m);
        OnlyItself(p, Dec(pw[m]), r + s);
        if !Has(t, Parent(r + s)) { ParentTold(t, p, rs, tw, pw, m); }
        UnsettableIsNotKept(t, p, r, s);
      }
    }
  }

  /** What cannot be set is not copied, and nothing below it is. */
  lemma UnsettableIsNotKept(t: Json, p: Json, r: Position, s: Position)
    requires r != [] && !Has(t, r) && !Settable(t, r) && KeepsMembersOnly(t, p)
    requires Has(p, r + s) && EmptyCollection(Get(p, r + s).value)
    ensures !Has(t, Parent(r + s))
  {
    hide Get;
    if s == [] {
      assert r + s == r;
      GetPrefix(p, Parent(r), r);
      assert Has(t, Parent(r)) ==> Kept(t, p, r);
    } else {
      assert Parent(r + s) == r + Parent(s);
      BelowMissing(t, r, r + Parent(s));
    }
  }

  /** What preserving does to a preserved position, exactly: the platform's value is in the template if it could be set
      there, or something above it could; otherwise the template has nothing there, and nothing can be set. */
  lemma PreservedBefore(t: Snapshot, p: Snapshot, rs: seq<string>, i: nat)
    requires WellPrepared(t, p, rs) && i < |rs|
    ensures var t1, p1, r := TemplateDocument(t, p, rs), PlatformDocument(t, p), Dec(rs[i]);
            && ProperPointer(rs[i]) && Get(p1, r) == Get(p.config, r) && Done(t1, p1, r)
            && (Get(t1, r) == Get(p.config, r) <==> (Has(p.config, r) ==> InReach(t.config, rs, r)))
  {
    hide Enc, Dec, Get, PreserveAll, Prepared, PlainAnnotations, PlainApiVersion, Settable, InReach;
    var unmanaged := Unmanaged(p.annotations, t.annotations, p.lastAppliedAnnotations);
    PreserveAllEffect(t.config, p.config, rs);
    assert Agree(TemplateDocument(t, p, rs), p.config, Dec(rs[i]));
    PreparedElsewhere(p.config, unmanaged, p.lastApplied, Dec(rs[i]));
    if Has(p.config, Dec(rs[i])) {
      PreservedIsSet(t.config, p.config, rs, Dec(rs[i]));
      PreservedExactlyIf(t.config, p.config, rs, Dec(rs[i]));
    }
  }

  /** The last desired state of a comparison that does not fail. */
  function DesiredState(r: Outcome): State {
    if r.Success? && r.value != [] then r.value[|r.value| - 1].desired else NoState
  }

  /** Preserved paths keep the platform's value, exactly: whatever the order of the two path lists, and whatever their
      raw prefix tests pass over, the desired state agrees with the platform at a preserved path, both without it or
      both with the same value, if and only if the platform lacks it or it was in reach, so that preserving it could
      succeed. That holds for the desired state of a recreation, too. */
  lemma PreservationHoldsExactlyIf(t: Snapshot, p: Snapshot, rs: seq<string>, tw: seq<string>, pw: seq<string>,
                                   allowRecreate: bool, i: nat)
    requires WellPrepared(t, p, rs) && i < |rs|
    requires var t1, p1 := TemplateDocument(t, p, rs), PlatformDocument(t, p);
             && DropsMembersOnly(t1, p1) && KeepsMembersOnly(t1, p1) && Lists(tw, t1, p1, rs) && IsWalk(pw, p1)
    ensures var t1, p1 := TemplateDocument(t, p, rs), PlatformDocument(t, p);
            var r := LoopsOutcome(t.kind, t.name, p.kind, p.name, t1, p1, rs, tw, pw, allowRecreate);
            && (r.Success? <==> allowRecreate || !MismatchAmong(t.kind, t1, p1, rs, tw, |tw|))
            && (r.Success? ==>
                  && DesiredState(r).Yaml? && Get(DesiredState(r).config, Dec(rs[i])) == Get(t1, Dec(rs[i]))
                  && (Get(DesiredState(r).config, Dec(rs[i])) == Get(p.config, Dec(rs[i])) <==>
                      (Has(p.config, Dec(rs[i])) ==> InReach(t.config, rs, Dec(rs[i])))))
  {
    hide Enc, Dec, Get, TemplateDocument, PlatformDocument, PlainAnnotations, DropsMembersOnly, KeepsMembersOnly, Lists,
      IsWalk, MismatchAmong, TemplateLoop, PlatformLoop, Final, FinalDocument, InReach, Done, DropsAre, Walks;
    var t1, p1 := TemplateDocument(t, p, rs), PlatformDocument(t, p);
    PreservedBefore(t, p, rs, i);
    PlatformIsPlain(t, p, rs);
    LoopsEndFinal(t.kind, t.name, p.kind, p.name, t1, p1, rs, tw, pw, allowRecreate);
    if MismatchAmong(t.kind, t1, p1, rs, tw, |tw|) {
      MismatchFoundUnlessLeftAlone(t.kind, t1, p1, rs, tw);
      assert tw[..|tw|] == tw;
      var m := StoppedAfter(t.kind, t1, p1, rs, tw, |tw|);
      PreservedAtStop(t1, p1, rs, tw, m, TemplateLoop(t.kind, t1, p1, rs, tw).config, i);
    } else {
      AreWalks(t1, p1, rs, tw, pw);
      PreservedAtEnd(t1, p1, rs, tw, pw, FinalDocument(t.kind, t1, p1, rs, tw, pw), i);
    }
  }

  /** A case in which it is not in reach: the template has no object for it, and the failure to set it is ignored. */
  lemma PreservedPathIsLost()
    ensures var t, p, r := Obj(map[]), Obj(map["spec" := Obj(map["host" := Str("a")])]), Enc(["spec", "host"]);
            Preservable(t, p, [r]) && Has(p, Dec(r)) && !InReach(t, [r], Dec(r)) && !Has(PreserveAll(t, p, [r]), Dec(r))
  {
    hide Enc, Dec, PreserveAll;
    var t, p, r := Obj(map[]), Obj(map["spec" := Obj(map["host" := Str("a")])]), Enc(["spec", "host"]);
    DecEnc(["spec", "host"]);
    assert [r][0] == r;
    GetChild(t, "spec");
    GetChild(p, "spec");
    GetChild(Obj(map["host" := Str("a")]), "host");
    GetConcat(p, ["spec"], ["host"]);
    assert ["spec"] + ["host"] == ["spec", "host"] && Parent(["spec", "host"]) == ["spec"];
    GetConcat(t, ["spec"], ["host"]);
    PreservedExactlyIf(t, p, [r], ["spec", "host"]);
  }

  lemma PlatformIsPlain(t: Snapshot, p: Snapshot, rs: seq<string>)
    requires WellPrepared(t, p, rs)
    ensures PlainAnnotations(PlatformDocument(t, p))
  {
    hide Prepared, PlainAnnotations, PlainApiVersion;
    PreparedEffect(p.config, Unmanaged(p.annotations, t.annotations, p.lastAppliedAnnotations), p.lastApplied);
  }

  /** One run is enough, with preserved paths: preserving again from the document that a comparison ended with leads
      to the same template, and a further comparison of the two finds nothing to do, in any order, exactly if the first
      one's copies were harmless. */
  lemma NextRunFindsNothingExactlyIf(t: Snapshot, p: Snapshot, rs: seq<string>, tw: seq<string>, pw: seq<string>,
                                     allowRecreate: bool)
    requires WellPrepared(t, p, rs) && PlainAnnotations(TemplateDocument(t, p, rs))
    requires var t1, p1 := TemplateDocument(t, p, rs), PlatformDocument(t, p);
             && DropsMembersOnly(t1, p1) && KeepsMembersOnly(t1, p1) && Lists(tw, t1, p1, rs) && IsWalk(pw, p1)
             && !MismatchAmong(t.kind, t1, p1, rs, tw, |tw|)
    ensures var t1, p1 := TemplateDocument(t, p, rs), PlatformDocument(t, p);
            var d := FinalDocument(t.kind, t1, p1, rs, tw, pw);
            var t2 := PreserveAll(t.config, d, rs);
            && t2 == t1
            && forall tw', pw' :: Lists(tw', t2, d, rs) && IsWalk(pw', d) ==>
                                    (LoopsOutcome(t.kind, t.name, p.kind, p.name, t2, d, rs, tw', pw', allowRecreate) ==
                                     Success([NewChange(t.kind, t.name, d, d)])
                                     <==> CopiesAreHarmless(t.kind, t1, p1, rs, tw, pw))
  {
    hide Enc, Dec, Get, PreserveAll, PlatformDocument, PlainAnnotations, DropsMembersOnly, KeepsMembersOnly, Lists,
      IsWalk, MismatchAmong, LoopsOutcome, FinalDocument, InReach, CopiesAreHarmless, Final, Done, Walks, Preservable;
    var t1, p1 := TemplateDocument(t, p, rs), PlatformDocument(t, p);
    var d := FinalDocument(t.kind, t1, p1, rs, tw, pw);
    PlatformIsPlain(t, p, rs);
    AreWalks(t1, p1, rs, tw, pw);
    LoopsEndFinal(t.kind, t.name, p.kind, p.name, t1, p1, rs, tw, pw, allowRecreate);
    forall i | 0 <= i < |rs| ensures Get(d, Dec(rs[i])) == Get(t1, Dec(rs[i])) {
      PreservedBefore(t, p, rs, i);
      PreservedAtEnd(t1, p1, rs, tw, pw, d, i);
    }
    assert rs[..|rs|] == rs;
    PreserveAgain(t.config, p.config, d, rs, |rs|);
    OneRunIsEnoughExactlyIf(t.kind, t.name, p.kind, p.name, t1, p1, rs, tw, pw, allowRecreate);
  }

  // ---- every comparison ----

  /** The path lists of a comparison are among the possible ones. */
  lemma ComparisonIsPossible(t: Snapshot, p: Snapshot, rs: seq<string>, allowRecreate: bool, tw: seq<string>,
                             pw: seq<string>, r: Outcome)
    requires WellPrepared(t, p, rs) && ResultOf(t, p, rs, allowRecreate, tw, pw, r)
    ensures var t1, p1 := TemplateDocument(t, p, rs), PlatformDocument(t, p);
            && PreservedFrom(t.config, t1, p1, rs) && PlainAnnotations(p1) && Possible(t.config, t1, p1, rs, tw, pw)
            && Lists(tw, t1, p1, rs) && IsWalk(pw, p1)
            && r == LoopsOutcome(t.kind, t.name, p.kind, p.name, t1, p1, rs, tw, pw, allowRecreate)
  {
    hide Enc, Get, PreserveAll, Prepared, PlainAnnotations, PlainApiVersion, PreparedList, Walkable, LoopsOutcome,
      PreservedFrom, Preservable, KeepAway, Lists, IsWalk;
    var t1, p1 := TemplateDocument(t, p, rs), PlatformDocument(t, p);
    PreparingPreserves(t, p, rs);
    PlatformIsPlain(t, p, rs);
    forall q ensures Has(p1, q) ==> Has(p.config, q) {
      PreparedHas(p.config, Unmanaged(p.annotations, t.annotations, p.lastAppliedAnnotations), p.lastApplied, q);
    }
    PreparedForBoth(tw, t.config, t1, p.config, p1, rs);
    assert Lists(tw, t1, p1, rs) by { PreparedListLists(tw, t.config, t1, p1, rs); }
    WalkableIsWalk(pw, p1);
  }

  lemma PreparedListLists(tw: seq<string>, t0: Json, t: Json, p: Json, rs: seq<string>)
    requires PreparedList(tw, t0, t, p, rs)
    ensures Lists(tw, t, p, rs)
  {
    hide Lists, WalkFirst;
  }

  /** What a comparison is about, once the arguments that are no pointers are left out, and what it relies on. */
  ghost predicate SoundPair(t: Snapshot, p: Snapshot, arguments: seq<string>) {
    var rs := PointersIn(arguments);
    && Usable(arguments) && WellPrepared(t, p, rs)
    && DropsMembersOnly(TemplateDocument(t, p, rs), PlatformDocument(t, p))
    && KeepsMembersOnly(TemplateDocument(t, p, rs), PlatformDocument(t, p))
  }

  lemma PathListsOf(t: Snapshot, p: Snapshot, arguments: seq<string>, allowRecreate: bool, r: Outcome)
    returns (tw: seq<string>, pw: seq<string>)
    requires Compares(t, p, arguments, allowRecreate, r) && SoundPair(t, p, arguments)
    ensures var rs := PointersIn(arguments);
            var t1, p1 := TemplateDocument(t, p, rs), PlatformDocument(t, p);
            && PreservedFrom(t.config, t1, p1, rs) && PlainAnnotations(p1) && Possible(t.config, t1, p1, rs, tw, pw)
            && Lists(tw, t1, p1, rs) && IsWalk(pw, p1)
            && r == LoopsOutcome(t.kind, t.name, p.kind, p.name, t1, p1, rs, tw, pw, allowRecreate)
  {
    hide ResultOf, Correct, TemplateDocument, PlatformDocument, PlainAnnotations, PlainApiVersion, DropsMembersOnly,
      KeepsMembersOnly, LoopsOutcome, PreservedFrom, Possible, Preservable, KeepAway, PointersIn, Lists, IsWalk,
      WellBehaved;
    tw, pw :| ResultOf(t, p, PointersIn(arguments), allowRecreate, tw, pw, r);
    ComparisonIsPossible(t, p, PointersIn(arguments), allowRecreate, tw, pw, r);
  }

  /** A robust pair is merged, whatever its order: nothing needs to be known about hidden paths but robustness. */
  lemma RobustIsMerged(t: Snapshot, p: Snapshot, arguments: seq<string>, allowRecreate: bool, r: Outcome)
    requires Compares(t, p, arguments, allowRecreate, r) && SoundPair(t, p, arguments)
    requires var rs := PointersIn(arguments);
             Robust(t.kind, t.config, TemplateDocument(t, p, rs), PlatformDocument(t, p), rs)
    ensures var t1, p1 := TemplateDocument(t, p, PointersIn(arguments)), PlatformDocument(t, p);
            r == Success([NewChange(t.kind, t.name, Merge(t1, p1), p1)])
  {
    hide Compares, WellPrepared, Usable, TemplateDocument, PlatformDocument, PlainAnnotations, DropsMembersOnly,
      KeepsMembersOnly, LoopsOutcome, PreservedFrom, Possible, PointersIn, Robust, Merge, Lists, IsWalk;
    var rs := PointersIn(arguments);
    var tw, pw := PathListsOf(t, p, arguments, allowRecreate, r);
    AlwaysMergedExactlyIf(t.kind, t.name, p.kind, p.name, t.config, TemplateDocument(t, p, rs), PlatformDocument(t, p),
                          rs, allowRecreate);
  }

  /** A mismatch at an immutable field that is neither preserved nor hidden always stops the comparison. */
  lemma OpenMismatchStops(t: Snapshot, p: Snapshot, arguments: seq<string>, allowRecreate: bool, r: Outcome,
                          q: Position)
    requires Compares(t, p, arguments, allowRecreate, r) && SoundPair(t, p, arguments)
    requires var rs := PointersIn(arguments);
             var t1, p1 := TemplateDocument(t, p, rs), PlatformDocument(t, p);
             OpenMismatch(t.kind, t1, p1, rs, q) && !HiddenBySome(t1, p1, rs, q)
    ensures StopsAtField(allowRecreate, r)
  {
    hide Compares, WellPrepared, Usable, TemplateDocument, PlatformDocument, PlainAnnotations, DropsMembersOnly,
      KeepsMembersOnly, LoopsOutcome, PreservedFrom, Possible, PointersIn, OpenMismatch, HiddenBySome, Lists, IsWalk,
      StopsAtField;
    var rs := PointersIn(arguments);
    var tw, pw := PathListsOf(t, p, arguments, allowRecreate, r);
    ImmutableFieldsAreSafe(t.kind, t.name, p.kind, p.name, TemplateDocument(t, p, rs), PlatformDocument(t, p), rs, tw,
                           pw, allowRecreate, q);
  }

  /** The desired state has the platform's value at a preserved path, exactly if that was in reach. */
  ghost predicate KeepsPreserved(t: Snapshot, p: Snapshot, rs: seq<string>, r: Outcome, i: nat)
    requires i < |rs|
  {
    DesiredState(r).Yaml? && (Get(DesiredState(r).config, Dec(rs[i])) == Get(p.config, Dec(rs[i])) <==>
                              (Has(p.config, Dec(rs[i])) ==> InReach(t.config, rs, Dec(rs[i]))))
  }

  /** Every desired state keeps the platform's value at the preserved paths in reach. */
  lemma PreservedInComparison(t: Snapshot, p: Snapshot, arguments: seq<string>, allowRecreate: bool, r: Outcome, i: nat)
    requires Compares(t, p, arguments, allowRecreate, r) && SoundPair(t, p, arguments) && r.Success?
    requires i < |PointersIn(arguments)|
    ensures KeepsPreserved(t, p, PointersIn(arguments), r, i)
  {
    hide Compares, WellPrepared, Usable, TemplateDocument, PlatformDocument, PlainAnnotations, DropsMembersOnly,
      KeepsMembersOnly, LoopsOutcome, PreservedFrom, Possible, PointersIn, Lists, IsWalk, InReach, MismatchAmong, Get,
      Dec, DesiredState;
    var tw, pw := PathListsOf(t, p, arguments, allowRecreate, r);
    PreservationHoldsExactlyIf(t, p, PointersIn(arguments), tw, pw, allowRecreate, i);
  }

  // ---- immutable fields ----

  /** The fields that the platform does not allow to be changed. */
  predicate Immovable(kind: string, q: Position) {
    || (kind == "PersistentVolumeClaim" &&
        (q == ["spec", "accessModes"] || q == ["spec", "storageClassName"] ||
         q == ["spec", "resources", "requests", "storage"]))
    || (kind == "Route" && q == ["spec", "host"])
    || (kind == "Secret" && q == ["type"])
  }

  lemma PointerOfTwo(a: string, b: string, pointer: string)
    requires Plain(a) && Plain(b) && pointer == "/" + a + "/" + b
    ensures Enc([a, b]) == pointer
  {
    hide Enc;
    PointerOfMember(b, "/" + b);
    EncPlain(a, [b]);
    assert [a] + [b] == [a, b] && "/" + a + ("/" + b) == "/" + a + "/" + b;
  }

  lemma ResourcesPointer()
    ensures Enc(["spec", "resources"]) == "/spec/resources" && Enc(["requests", "storage"]) == "/requests/storage"
  {
    hide Enc;
    PointerOfTwo("spec", "resources", "/spec/resources");
    PointerOfTwo("requests", "storage", "/requests/storage");
  }

  lemma StoragePointer()
    ensures Enc(["spec", "resources", "requests", "storage"]) == "/spec/resources/requests/storage"
  {
    hide Enc;
    ResourcesPointer();
    EncConcat(["spec", "resources"], ["requests", "storage"]);
    assert ["spec", "resources"] + ["requests", "storage"] == ["spec", "resources", "requests", "storage"];
    assert "/spec/resources" + "/requests/storage" == "/spec/resources/requests/storage";
  }

  lemma AccessModesPointer()
    ensures Enc(["spec", "accessModes"]) == "/spec/accessModes"
  {
    hide Enc;
    PointerOfTwo("spec", "accessModes", "/spec/accessModes");
  }

  lemma StorageClassPointer()
    ensures Enc(["spec", "storageClassName"]) == "/spec/storageClassName"
  {
    hide Enc;
    PointerOfTwo("spec", "storageClassName", "/spec/storageClassName");
  }

  lemma PointerOnlyOf(q: Position, at: Position)
    ensures Enc(q) == Enc(at) <==> q == at
  {
    hide Enc, Dec;
    DecEnc(q);
    DecEnc(at);
  }

  lemma ImmutableFieldsAre(kind: string, q: Position)
    ensures Enc(q) in ImmutableFields(kind) <==> Immovable(kind, q)
  {
    hide Enc;
    if kind == "PersistentVolumeClaim" {
      AccessModesPointer();
      StorageClassPointer();
      StoragePointer();
      PointerOnlyOf(q, ["spec", "accessModes"]);
      PointerOnlyOf(q, ["spec", "storageClassName"]);
      PointerOnlyOf(q, ["spec", "resources", "requests", "storage"]);
    } else if kind == "Route" {
      PointerOfTwo("spec", "host", "/spec/host");
      PointerOnlyOf(q, ["spec", "host"]);
    } else if kind == "Secret" {
      PointerOfMember("type", "/type");
      PointerOnlyOf(q, ["type"]);
    }
  }

  /** The template wants another scalar at an immutable field than the platform has, or wants one the platform lacks. */
  predicate WantsToMove(kind: string, t: Json, p: Json, q: Position) {
    && Immovable(kind, q) && Has(t, q)
    && if Has(p, q) then !IsCollection(Get(t, q).value) && Get(t, q) != Get(p, q) else Has(p, Parent(q))
  }

  lemma MismatchMeans(kind: string, t: Json, p: Json, q: Position)
    ensures Mismatch(kind, t, p, q) <==> WantsToMove(kind, t, p, q)
  {
    hide Enc, Get, ImmutableFields;
    ImmutableFieldsAre(kind, q);
    if q != [] && Has(p, q) { GetPrefix(p, Parent(q), q); }
  }

  /** A change of an immutable field that is neither preserved nor hidden is never made in place: the resource is
      recreated if that is allowed, and the comparison refused otherwise. */
  lemma ImmutableFieldsStay(t: Snapshot, p: Snapshot, arguments: seq<string>, allowRecreate: bool, r: Outcome,
                            q: Position)
    requires Compares(t, p, arguments, allowRecreate, r) && SoundPair(t, p, arguments)
    requires var rs := PointersIn(arguments);
             var t1, p1 := TemplateDocument(t, p, rs), PlatformDocument(t, p);
             WantsToMove(t.kind, t1, p1, q) && !AnyPrefix(rs, Enc(q)) && !HiddenBySome(t1, p1, rs, q)
    ensures if allowRecreate then r.Success? && |r.value| == 2 else r.Failure? && r.error.Immutable?
  {
    hide Compares, SoundPair, TemplateDocument, PlatformDocument, PointersIn, WantsToMove, HiddenBySome, Mismatch, Enc,
      AnyPrefix;
    var rs := PointersIn(arguments);
    MismatchMeans(t.kind, TemplateDocument(t, p, rs), PlatformDocument(t, p), q);
    OpenMismatchStops(t, p, arguments, allowRecreate, r, q);
  }

  /** And a comparison recreates, or refuses to, for no other reason. */
  lemma OnlyImmutableFieldsStop(t: Snapshot, p: Snapshot, arguments: seq<string>, allowRecreate: bool, r: Outcome)
    returns (q: Position)
    requires Compares(t, p, arguments, allowRecreate, r) && SoundPair(t, p, arguments)
    requires if allowRecreate then r.Success? && |r.value| == 2 else r.Failure? && r.error.Immutable?
    ensures var rs := PointersIn(arguments);
            WantsToMove(t.kind, TemplateDocument(t, p, rs), PlatformDocument(t, p), q) && !AnyPrefix(rs, Enc(q))
  {
    hide Compares, WellPrepared, Usable, TemplateDocument, PlatformDocument, PlainAnnotations, DropsMembersOnly,
      KeepsMembersOnly, LoopsOutcome, PreservedFrom, Possible, PointersIn, Lists, IsWalk, WantsToMove, PassedBy,
      Mismatch, Enc, Dec, AnyPrefix, Final;
    var rs := PointersIn(arguments);
    var t1, p1 := TemplateDocument(t, p, rs), PlatformDocument(t, p);
    var tw, pw := PathListsOf(t, p, arguments, allowRecreate, r);
    LoopsEndFinal(t.kind, t.name, p.kind, p.name, t1, p1, rs, tw, pw, allowRecreate);
    var k :| 0 <= k < |tw| && Mismatch(t.kind, t1, p1, Dec(tw[k])) && !LeftAlone(t1, p1, rs, tw, k);
    q := Dec(tw[k]);
    MismatchMeans(t.kind, t1, p1, q);
    WrittenProperly(tw, t1, p1, rs, k);
  }

  lemma WrittenProperly(tw: seq<string>, t: Json, p: Json, rs: seq<string>, k: nat)
    requires Lists(tw, t, p, rs) && k < |tw|
    ensures tw[k] == Enc(Dec(tw[k]))
  {
    hide Enc, Dec, Get;
  }

  // ---- no change ----

  lemma NoopOutcome(kind: string, name: string, pKind: string, pName: string, t: Json, p: Json, rs: seq<string>,
                    tw: seq<string>, pw: seq<string>, allowRecreate: bool, c: Change)
    requires var r := LoopsOutcome(kind, name, pKind, pName, t, p, rs, tw, pw, allowRecreate);
             r.Success? && c in r.value && c.action == Noop
    ensures LoopsOutcome(kind, name, pKind, pName, t, p, rs, tw, pw, allowRecreate) ==
            Success([NewChange(kind, name, p, p)])
  {
    hide TemplateLoop, PlatformLoop;
  }

  /** A comparison that finds nothing to do is about documents in sync, whatever was hidden. */
  lemma NoopIsSynced(t: Snapshot, p: Snapshot, arguments: seq<string>, allowRecreate: bool, r: Outcome, c: Change)
    requires Compares(t, p, arguments, allowRecreate, r) && SoundPair(t, p, arguments)
    requires r.Success? && c in r.value && c.action == Noop
    ensures var rs := PointersIn(arguments);
            SyncedWith(t.kind, TemplateDocument(t, p, rs), PlatformDocument(t, p), rs)
  {
    hide Compares, WellPrepared, Usable, TemplateDocument, PlatformDocument, PlainAnnotations, DropsMembersOnly,
      KeepsMembersOnly, LoopsOutcome, PreservedFrom, Possible, PointersIn, Lists, IsWalk, NewChange, SyncedWith;
    var rs := PointersIn(arguments);
    var t1, p1 := TemplateDocument(t, p, rs), PlatformDocument(t, p);
    var tw, pw := PathListsOf(t, p, arguments, allowRecreate, r);
    NoopOutcome(t.kind, t.name, p.kind, p.name, t1, p1, rs, tw, pw, allowRecreate, c);
    NothingToDoExactlyIf(t.kind, t.name, p.kind, p.name, t1, p1, rs, tw, pw, allowRecreate);
  }

  /** An apiVersion that differs from the template's is drift, unless it is the outdated one, and the template's is the
      one that was applied last. */
  lemma OtherApiVersionIsDrift(t: Snapshot, p: Snapshot, arguments: seq<string>, allowRecreate: bool, r: Outcome,
                               wanted: string, current: string, c: Change)
    requires Compares(t, p, arguments, allowRecreate, r) && SoundPair(t, p, arguments) && r.Success? && c in r.value
    requires Get(t.config, ["apiVersion"]) == Some(Str(wanted)) && Get(p.config, ["apiVersion"]) == Some(Str(current))
    requires wanted != current
    requires !(current == "extensions/v1beta1" && Get(p.lastApplied, ["apiVersion"]) == Some(Str(wanted)))
    ensures c.action != Noop
  {
    hide Compares, Usable, TemplateDocument, PlatformDocument, PlainAnnotations, DropsMembersOnly, KeepsMembersOnly,
      Get, PlainApiVersion, PointersIn, SyncedWith, Preservable, KeepAway;
    if c.action == Noop {
      NoopIsSynced(t, p, arguments, allowRecreate, r, c);
      ApiVersionsAgree(t, p, PointersIn(arguments), wanted, current);
      assert false;
    }
  }

  /** Documents in sync have the same apiVersion, once the outdated one is fixed. */
  lemma ApiVersionsAgree(t: Snapshot, p: Snapshot, rs: seq<string>, wanted: string, current: string)
    requires WellPrepared(t, p, rs) && SyncedWith(t.kind, TemplateDocument(t, p, rs), PlatformDocument(t, p), rs)
    requires Get(t.config, ["apiVersion"]) == Some(Str(wanted)) && Get(p.config, ["apiVersion"]) == Some(Str(current))
    ensures wanted == current ||
            (current == "extensions/v1beta1" && Get(p.lastApplied, ["apiVersion"]) == Some(Str(wanted)))
  {
    hide Get, PreserveAll, Prepared, PlainAnnotations, Preservable, KeepAway, AnyPrefix;
    var unmanaged := Unmanaged(p.annotations, t.annotations, p.lastAppliedAnnotations);
    TemplateMetadata(t, p, rs);
    PreparedEffect(p.config, unmanaged, p.lastApplied);
    var t1, p1 := TemplateDocument(t, p, rs), PlatformDocument(t, p);
    assert Has(t1, API_VERSION) && Has(p1, API_VERSION);
    assert LabelAt(t1, API_VERSION) == LabelAt(p1, API_VERSION);
  }

  // ---- every plan ----

  /** In every plan, for every described resource that the platform has: a robust pair is planned as one change to the
      merged document; a mismatch at an immutable field that is neither preserved nor hidden is planned as a
      recreation, which must have been allowed; and all desired states keep what is preserved. */
  lemma InEveryPlan(ts: seq<Snapshot>, ps: seq<Snapshot>, upsertOnly: bool, allowRecreate: bool, arguments: seq<string>,
                    plan: Plan, i: nat)
    requires IsPlan(ts, ps, true, upsertOnly, allowRecreate, arguments, plan) && i < |ts|
    requires IndexOf(ps, ts[i].kind, ts[i].name) < |ps|
    requires SoundPair(ts[i], ps[IndexOf(ps, ts[i].kind, ts[i].name)], PathsFor(ts[i].kind, ts[i].name, arguments))
    ensures var t, p, rs := ts[i], ps[IndexOf(ps, ts[i].kind, ts[i].name)],
                            PointersIn(PathsFor(ts[i].kind, ts[i].name, arguments));
            var t1, p1, changes := TemplateDocument(t, p, rs), PlatformDocument(t, p), plan.compared[i];
            && (Robust(t.kind, t.config, t1, p1, rs) ==> changes == [NewChange(t.kind, t.name, Merge(t1, p1), p1)])
            && (forall q :: OpenMismatch(t.kind, t1, p1, rs, q) && !HiddenBySome(t1, p1, rs, q) ==>
                              allowRecreate && |changes| == 2)
            && forall k :: 0 <= k < |rs| ==> KeepsPreserved(t, p, rs, Success(changes), k)
  {
    hide Compares, SoundPair, TemplateDocument, PlatformDocument, PathsFor, IndexOf, PointersIn, Robust, Merge,
      OpenMismatch, HiddenBySome, KeepsPreserved, WellFormed, ImmutablesPreserved, Deletions,
      Creations;
    var t, p, paths := ts[i], ps[IndexOf(ps, ts[i].kind, ts[i].name)], PathsFor(ts[i].kind, ts[i].name, arguments);
    var rs := PointersIn(paths);
    var t1, p1, changes := TemplateDocument(t, p, rs), PlatformDocument(t, p), plan.compared[i];
    assert PlansItem(ts, ps, true, allowRecreate, arguments, i, changes);
    assert Compares(t, p, paths, allowRecreate, Success(changes));
    if Robust(t.kind, t.config, t1, p1, rs) { RobustIsMerged(t, p, paths, allowRecreate, Success(changes)); }
    forall q | OpenMismatch(t.kind, t1, p1, rs, q) && !HiddenBySome(t1, p1, rs, q)
      ensures allowRecreate && |changes| == 2
    {
      OpenMismatchStops(t, p, paths, allowRecreate, Success(changes), q);
    }
    forall k | 0 <= k < |rs| ensures KeepsPreserved(t, p, rs, Success(changes), k) {
      PreservedInComparison(t, p, paths, allowRecreate, Success(changes), k);
    }
  }
}
