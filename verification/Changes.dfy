/** The changes that bring one resource in sync (pkg/openshift/change.go), and the comparison that finds
    them (calculateChanges in pkg/openshift/changeset.go). */
module Changes {
  import opened Wrappers
  import opened Text
  import opened Documents
  import opened Pointers
  import opened Merging
  import opened Walking
  import opened Preparing
  import opened Platform
  import opened Comparison
  import opened Loops
  import opened Items

  datatype Action = Create | Update | Delete | Noop

  /** A rendered state. The YAML text of a document stands for the document; no text stands for none. */
  datatype State = NoState | Yaml(config: Json)

  datatype Change = Change(action: Action, kind: string, name: string, current: State, desired: State)

  function NewChange(kind: string, name: string, t: Json, p: Json): Change {
    Change(if Yaml(p) != Yaml(t) then Update else Noop, kind, name, Yaml(p), Yaml(t))
  }

  function RecreateChanges(kind: string, name: string, t: Json, p: Json): seq<Change> {
    [Change(Delete, kind, name, Yaml(p), NoState), Change(Create, kind, name, NoState, Yaml(t))]
  }

  /** An update, or no change when the two states are the same. */
  predicate InPlace(kind: string, name: string, c: Change) {
    && c.kind == kind && c.name == name && c.current.Yaml? && c.desired.Yaml?
    && c.action == if c.current == c.desired then Noop else Update
  }

  /** A deletion, which leaves nothing, followed by a creation, before which there is nothing. */
  predicate DeletesAndCreates(kind: string, name: string, changes: seq<Change>) {
    && |changes| == 2
    && changes[0].kind == changes[1].kind == kind && changes[0].name == changes[1].name == name
    && changes[0].action == Action.Delete && changes[0].current.Yaml? && changes[0].desired == NoState
    && changes[1].action == Create && changes[1].current == NoState && changes[1].desired.Yaml?
  }

  /** What changes report as the current state: the platform's document, but for creations, which report none. */
  predicate CurrentIs(p: Json, changes: seq<Change>) {
    forall c :: c in changes ==> c.current == if c.action == Create then NoState else Yaml(p)
  }

  /** What a comparison may return, whatever the documents: one change that leaves the resource where it
      is, or, only when allowed, its deletion followed by its creation. */
  predicate WellFormed(kind: string, name: string, allowRecreate: bool, changes: seq<Change>) {
    (|changes| == 1 && InPlace(kind, name, changes[0])) || (allowRecreate && DeletesAndCreates(kind, name, changes))
  }

  type Outcome = Result<seq<Change>, Error>

  /** What a comparison of the prepared documents t and p must return, as long as it drops no element of a
      list. */
  ghost predicate Correct(kind: string, name: string, t: Json, p: Json, allowRecreate: bool, r: Outcome) {
    if !DropsMembersOnly(t, p) then true
    else if AnyMismatch(kind, t, p) then
      if allowRecreate then r.Success? && Recreated(kind, name, t, p, r.value)
      else r.Failure? && r.error.Immutable? &&
           exists q :: Mismatch(kind, t, p, q) && r.error.path == Enc(q)
    else if !KeepsMembersOnly(t, p) then r.Failure? && r.error.PointerFailed? && Unkeepable(t, p, r.error.path)
    else r == Success([NewChange(kind, name, Merge(t, p), p)])
  }

  ghost predicate Recreated(kind: string, name: string, t: Json, p: Json, changes: seq<Change>) {
    && DeletesAndCreates(kind, name, changes) && CurrentIs(p, changes)
    && PartlyEdited(kind, t, p, changes[1].desired.config)
  }

  /** Every immutable field of the kind is one of the preserved paths. */
  predicate ImmutablesPreserved(kind: string, preservePaths: seq<string>) {
    forall f :: f in ImmutableFields(kind) ==> f in preservePaths
  }

  lemma NotPreserved(kind: string, preservePaths: seq<string>, path: string)
    requires path in ImmutableFields(kind) && !AnyPrefix(preservePaths, path)
    ensures !ImmutablesPreserved(kind, preservePaths)
  {
    forall i | 0 <= i < |preservePaths| ensures preservePaths[i] != path {}
  }

  /** What a comparison returns when it stops at an immutable field. */
  function StopAt(kind: string, name: string, pKind: string, pName: string, path: string, t: Json, p: Json,
                  allowRecreate: bool): Outcome {
    if allowRecreate then Success(RecreateChanges(kind, name, t, p)) else Failure(Immutable(path, pKind, pName))
  }

  /** What a comparison returns when the template's path loop stops. */
  function StopOf(kind: string, name: string, pKind: string, pName: string, p: Json, loop: Progress,
                  allowRecreate: bool): Option<Outcome> {
    match loop
    case Going(_, _, _) => None
    case Mismatched(path, config) => Some(StopAt(kind, name, pKind, pName, path, config, p, allowRecreate))
    case Stuck(path) => Some(Failure(PointerFailed(path)))
  }

  /** The template's path loop: edits the template's document, and stops at an immutable mismatch. */
  method CompareTemplatePaths(templateItem: ResourceItem, platformItem: ResourceItem, preservePaths: seq<string>,
                              allowRecreate: bool)
    returns (stop: Option<Outcome>, comparedPaths: set<string>, ghost addedPaths: seq<string>)
    requires templateItem != platformItem
    modifies templateItem`config
    ensures var loop := TemplateLoop(templateItem.kind, old(templateItem.config), platformItem.config, preservePaths,
                                     templateItem.paths);
            && stop == StopOf(templateItem.kind, templateItem.name, platformItem.kind, platformItem.name,
                              platformItem.config, loop, allowRecreate)
            && (loop.Going? ==> templateItem.config == loop.config && comparedPaths == loop.compared)
    ensures stop.Some? && stop.value.Success? ==>
              && allowRecreate && DeletesAndCreates(templateItem.kind, templateItem.name, stop.value.value)
              && CurrentIs(platformItem.config, stop.value.value)
    ensures stop.Some? && stop.value.Failure? ==> stop.value.error.Immutable? || stop.value.error.PointerFailed?
    ensures ImmutablesPreserved(templateItem.kind, preservePaths) && stop.Some? ==>
              stop.value.Failure? && !stop.value.error.Immutable?
    ensures Comparable(old(templateItem.config), platformItem.config, templateItem.paths, preservePaths) ==>
              var t, p := old(templateItem.config), platformItem.config;
              if stop.None? then
                Edited(t, p, templateItem.paths, templateItem.config) &&
                Noted(t, p, templateItem.kind, templateItem.paths, addedPaths, comparedPaths)
              else
                StoppedEarly(templateItem.kind, templateItem.name, t, p, allowRecreate, stop.value)
  {
    hide Enc, Dec, Get, Documents.Delete, AnyPrefix, ImmutableFields, ImmutablesPreserved, IsCollection, TemplateLoop,
      StopAt, Comparable, BeforePath, Edited, Noted, StoppedEarly, Mismatch, Dropped, RecreateChanges,
      DeletesAndCreates, CurrentIs;
    var added: seq<string> := [];
    comparedPaths := {};
    ghost var t, p, kind := templateItem.config, platformItem.config, templateItem.kind;
    ghost var sound := Comparable(t, p, templateItem.paths, preservePaths);
    ghost var paths := templateItem.paths;
    NothingLooped(kind, t, p, preservePaths, paths);
    if sound { NothingNoted(t, p, kind, templateItem.paths, preservePaths); }
    for i := 0 to |templateItem.paths|
      invariant TemplateLoop(kind, t, p, preservePaths, paths[..i]) == Going(templateItem.config, comparedPaths, added)
      invariant sound ==> BeforePath(t, p, kind, templateItem.paths, i, preservePaths, added, comparedPaths,
                                     templateItem.config)
    {
      var path := templateItem.paths[i];
      ghost var cfg := templateItem.config;
      TemplateLoopNext(kind, t, p, preservePaths, paths, i);
      var hidden := IncludesPrefix(added, path);
      if hidden {
        if sound { SkippedPath(t, p, kind, templateItem.paths, i, preservePaths, added, comparedPaths, cfg); }
        continue;
      }
      var preserved := IncludesPrefix(preservePaths, path);
      if preserved {
        if sound { PreservedPath(t, p, kind, templateItem.paths, i, preservePaths, added, comparedPaths, cfg); }
        comparedPaths := comparedPaths + {path};
        continue;
      }
      if sound {
        ComparedPath(t, p, kind, templateItem.paths, i, preservePaths, added, comparedPaths, cfg);
        TemplateCases(t, p, kind, path, cfg);
        if Mismatch(kind, t, p, Dec(path)) {
          StoppedHere(t, p, kind, templateItem.name, templateItem.paths, i, preservePaths, added, comparedPaths, cfg,
                      path);
        }
        if Dropped(t, p, Dec(path)) && !Mismatch(kind, t, p, Dec(path)) {
          DroppedPath(t, p, kind, templateItem.paths, i, preservePaths, added, comparedPaths, cfg);
        } else if !Mismatch(kind, t, p, Dec(path)) {
          NotedPath(t, p, kind, templateItem.paths, i, preservePaths, added, comparedPaths, cfg);
        }
      }
      var templateItemVal := Get(templateItem.config, Dec(path));
      var platformItemVal := Get(platformItem.config, Dec(path));
      if platformItemVal.None? {
        var immutable := templateItem.IsImmutableField(path);
        if immutable {
          NotPreserved(templateItem.kind, preservePaths, path);
          var outcome := Stop(templateItem, platformItem, path, allowRecreate);
          TemplateLoopStops(kind, t, p, preservePaths, paths, i + 1);
          return Some(outcome), comparedPaths, added;
        }
        comparedPaths := comparedPaths + {path};
        if templateItemVal == Some(Str("")) {
          var edited := Documents.Delete(templateItem.config, Dec(path));
          if edited.None? {
            if sound { StoppedAtElement(kind, templateItem.name, t, p, allowRecreate, path); }
            TemplateLoopStops(kind, t, p, preservePaths, paths, i + 1);
            return Some(Failure(PointerFailed(path))), comparedPaths, added;
          }
          templateItem.config := edited.value;
        } else {
          added := added + [path];
        }
      } else {
        if IsCollection(ValueOrNull(templateItemVal)) {
          comparedPaths := comparedPaths + {path};
        } else if ValueOrNull(templateItemVal) == platformItemVal.value {
          comparedPaths := comparedPaths + {path};
        } else {
          var immutable := templateItem.IsImmutableField(path);
          if immutable {
            NotPreserved(templateItem.kind, preservePaths, path);
            var outcome := Stop(templateItem, platformItem, path, allowRecreate);
            TemplateLoopStops(kind, t, p, preservePaths, paths, i + 1);
            return Some(outcome), comparedPaths, added;
          }
          comparedPaths := comparedPaths + {path};
        }
      }
    }
    if sound { AllNoted(t, p, kind, templateItem.paths, preservePaths, added, comparedPaths, templateItem.config); }
    assert paths[..|paths|] == paths;
    addedPaths := added;
    stop := None;
  }

  lemma NothingLooped(kind: string, t: Json, p: Json, rs: seq<string>, paths: seq<string>)
    ensures TemplateLoop(kind, t, p, rs, paths[..0]) == Going(t, {}, [])
  {
  }

  lemma NothingNoted(t: Json, p: Json, kind: string, paths: seq<string>, rs: seq<string>)
    requires Comparable(t, p, paths, rs)
    ensures BeforePath(t, p, kind, paths, 0, rs, [], {}, t)
  {
    assert paths[..0] == [];
  }

  lemma AllNoted(t: Json, p: Json, kind: string, paths: seq<string>, rs: seq<string>, added: seq<string>,
                 compared: set<string>, cfg: Json)
    requires BeforePath(t, p, kind, paths, |paths|, rs, added, compared, cfg)
    ensures Edited(t, p, paths, cfg) && Noted(t, p, kind, paths, added, compared)
  {
    assert paths[..|paths|] == paths;
  }

  /** What the loop's tests on the two values mean. */
  lemma {:induction false} TemplateCases(t: Json, p: Json, kind: string, path: string, cfg: Json)
    requires path == Enc(Dec(path)) && Dec(path) != []
    requires Has(t, Dec(path)) && Has(p, Parent(Dec(path))) && LabelAt(cfg, Dec(path)) == LabelAt(t, Dec(path))
    ensures var q := Dec(path);
            var tv, pv, immutable := Get(cfg, q), Get(p, q), path in ImmutableFields(kind);
            && tv.Some? && ValueOrNull(tv) == tv.value
            && (Dropped(t, p, q) <==> pv.None? && tv == Some(Str("")))
            && (Added(t, p, q) <==> pv.None? && tv != Some(Str("")))
            && (Mismatch(kind, t, p, q) <==> immutable && (pv.None? || (!IsCollection(tv.value) && tv != pv)))
  {
    hide Enc, Dec, ImmutableFields;
    SameScalar(cfg, t, Dec(path));
  }

  lemma StoppedHere(t: Json, p: Json, kind: string, name: string, paths: seq<string>, i: nat, rs: seq<string>,
                    added: seq<string>, compared: set<string>, cfg: Json, path: string)
    requires i < |paths| && BeforePath(t, p, kind, paths, i, rs, added, compared, cfg)
    requires path == Enc(Dec(path)) && Mismatch(kind, t, p, Dec(path))
    ensures forall pKind, pName, allowRecreate ::
              StoppedEarly(kind, name, t, p, allowRecreate,
                           StopAt(kind, name, pKind, pName, path, cfg, p, allowRecreate))
  {
    hide Enc, Dec, Get, Mismatch, Edited, Noted, Comparable, PartlyEdited, DropsMembersOnly;
    StoppedMidway(t, p, kind, paths[..i], added, compared, cfg);
  }

  lemma StoppedAtElement(kind: string, name: string, t: Json, p: Json, allowRecreate: bool, path: string)
    requires !DropsMembersOnly(t, p)
    ensures StoppedEarly(kind, name, t, p, allowRecreate, Failure(PointerFailed(path)))
  {
  }

  lemma RecreationIsWellFormed(kind: string, name: string, t: Json, p: Json)
    ensures DeletesAndCreates(kind, name, RecreateChanges(kind, name, t, p))
    ensures CurrentIs(p, RecreateChanges(kind, name, t, p))
    ensures RecreateChanges(kind, name, t, p)[1].desired == Yaml(t)
  {
  }

  /** Recreates the resource at an immutable mismatch, or refuses to. */
  method Stop(templateItem: ResourceItem, platformItem: ResourceItem, path: string,
              allowRecreate: bool) returns (r: Outcome)
    ensures if allowRecreate then
              && r.Success? && DeletesAndCreates(templateItem.kind, templateItem.name, r.value)
              && CurrentIs(platformItem.config, r.value) && r.value[1].desired == Yaml(templateItem.config)
            else r == Failure(Immutable(path, platformItem.kind, platformItem.name))
    ensures r == StopAt(templateItem.kind, templateItem.name, platformItem.kind, platformItem.name, path,
                        templateItem.config, platformItem.config, allowRecreate)
  {
    RecreationIsWellFormed(templateItem.kind, templateItem.name, templateItem.config, platformItem.config);
    if allowRecreate {
      return Success(RecreateChanges(templateItem.kind, templateItem.name, templateItem.config, platformItem.config));
    } else {
      return Failure(Immutable(path, platformItem.kind, platformItem.name));
    }
  }

  ghost predicate StoppedEarly(kind: string, name: string, t: Json, p: Json, allowRecreate: bool, r: Outcome) {
    DropsMembersOnly(t, p) ==>
      AnyMismatch(kind, t, p) &&
      if allowRecreate then r.Success? && Recreated(kind, name, t, p, r.value)
      else r.Failure? && r.error.Immutable? && exists q :: Mismatch(kind, t, p, q) && r.error.path == Enc(q)
  }

  /** The platform's path loop: completes the template's document with what only the platform has. */
  method ComparePlatformPaths(templateItem: ResourceItem, platformItem: ResourceItem, comparedBefore: set<string>,
                              ghost t: Json, ghost mid: Json, ghost tPaths: seq<string>,
                              ghost preservePaths: seq<string>)
    returns (r: Result<(), Error>, ghost deletedPaths: seq<string>)
    requires templateItem != platformItem && templateItem.config == mid
    modifies templateItem`config
    ensures var loop := PlatformLoop(old(templateItem.config), comparedBefore, platformItem.config, platformItem.paths);
            if r.Success? then loop.Completing? && templateItem.config == loop.config
            else loop.Broken? && r.error == PointerFailed(loop.path)
    ensures SecondLoopReady(t, platformItem.config, mid, tPaths, platformItem.paths, preservePaths, comparedBefore) ==>
              if r.Success? then
                BeforePlatformPath(t, platformItem.config, tPaths, platformItem.paths, |platformItem.paths|,
                                   preservePaths, deletedPaths, mid, templateItem.config)
              else r.error.PointerFailed? && Unkeepable(t, platformItem.config, r.error.path)
  {
    hide Enc, Dec, Get, Set, AnyPrefix, EmptyCollection, PlatformLoop, SecondLoopReady, BeforePlatformPath,
      Unkeepable;
    var comparedPaths := comparedBefore;
    var deleted: seq<string> := [];
    ghost var p, pPaths := platformItem.config, platformItem.paths;
    ghost var sound := SecondLoopReady(t, p, mid, tPaths, pPaths, preservePaths, comparedBefore);
    if sound { NothingTold(t, p, tPaths, pPaths, preservePaths, mid, comparedBefore); }
    NothingCompleted(mid, comparedBefore, p, pPaths);
    for i := 0 to |platformItem.paths|
      invariant PlatformLoop(mid, comparedBefore, p, pPaths[..i]) ==
                Completing(templateItem.config, comparedPaths, deleted)
      invariant sound ==>
          BeforePlatformPath(t, p, tPaths, pPaths, i, preservePaths, deleted, mid, templateItem.config)
      invariant sound ==> forall k :: i <= k < |pPaths| ==> (pPaths[k] in comparedPaths <==> Has(t, Dec(pPaths[k])))
    {
      var path := platformItem.paths[i];
      ghost var cfg := templateItem.config;
      PlatformLoopNext(mid, comparedBefore, p, pPaths, i);
      if sound {
        PlatformPathTold(t, p, tPaths, pPaths, i, preservePaths, deleted, mid, cfg);
        PlatformDistinct(t, p, tPaths, pPaths, i, preservePaths, deleted, mid, cfg);
        PlatformCases(t, p, path, deleted);
      }
      if path !in comparedPaths {
        var below := IncludesPrefix(deleted, path);
        if below {
          continue;
        }
        var got := Get(platformItem.config, Dec(path));
        if got.None? {
          PlatformLoopStops(mid, comparedBefore, p, pPaths, i + 1);
          return Failure(PointerFailed(path)), deleted;
        }
        var val := got.value;
        if val == Null {
          continue;
        }
        EmptyCases(val);
        if sound && EmptyCollection(val) {
          PlatformPathKept(t, p, tPaths, pPaths, i, preservePaths, deleted, mid, cfg);
        }
        if path == Enc(ANNOTATIONS) {
          DecEnc(ANNOTATIONS);
          if val.Obj? && |val.fields| == 0 {
            var edited := SetInto(templateItem, path, Obj(map[]));
            if !edited {
              PlatformLoopStops(mid, comparedBefore, p, pPaths, i + 1);
              return Failure(PointerFailed(path)), deleted;
            }
          }
          continue;
        }
        if val.Obj? && |val.fields| == 0 {
          var edited := SetInto(templateItem, path, Obj(map[]));
          if !edited {
            PlatformLoopStops(mid, comparedBefore, p, pPaths, i + 1);
            return Failure(PointerFailed(path)), deleted;
          }
          continue;
        }
        if val.Arr? && |val.items| == 0 {
          var edited := SetInto(templateItem, path, Arr([]));
          if !edited {
            PlatformLoopStops(mid, comparedBefore, p, pPaths, i + 1);
            return Failure(PointerFailed(path)), deleted;
          }
          continue;
        }
        comparedPaths := comparedPaths + {path};
        deleted := deleted + [path];
      }
    }
    assert pPaths[..|pPaths|] == pPaths;
    return Success(()), deleted;
  }

  method SetInto(item: ResourceItem, path: string, value: Json) returns (ok: bool)
    modifies item`config
    ensures ok == Set(old(item.config), Dec(path), value).Some?
    ensures item.config == if ok then Set(old(item.config), Dec(path), value).value else old(item.config)
  {
    var edited := Set(item.config, Dec(path), value);
    if edited.Some? {
      item.config := edited.value;
    }
    return edited.Some?;
  }

  // ---- the whole comparison ----

  /** The template's document as the loops start with it. */
  function TemplateDocument(t: Snapshot, p: Snapshot, preservePaths: seq<string>): Json {
    PreserveAll(t.config, p.config, preservePaths)
  }

  /** The platform's document as the loops compare it. */
  function PlatformDocument(t: Snapshot, p: Snapshot): Json {
    Prepared(p.config, Unmanaged(p.annotations, t.annotations, p.lastAppliedAnnotations), p.lastApplied)
  }

  /** Neither position is at or below the other. */
  predicate Unrelated(a: Position, b: Position) {
    !(a <= b) && !(b <= a)
  }

  /** Preserved paths keep away from what the comparison itself edits on the platform side. */
  ghost predicate KeepAway(rs: seq<string>) {
    forall i :: 0 <= i < |rs| ==> Unrelated(Dec(rs[i]), ANNOTATIONS) && Unrelated(Dec(rs[i]), API_VERSION)
  }

  /** What a comparison of the prepared documents returns, given the two path lists, whatever these are. */
  function LoopsOutcome(kind: string, name: string, pKind: string, pName: string, t: Json, p: Json, rs: seq<string>,
                        tPaths: seq<string>, pPaths: seq<string>, allowRecreate: bool): Outcome {
    match TemplateLoop(kind, t, p, rs, tPaths)
    case Mismatched(path, config) => StopAt(kind, name, pKind, pName, path, config, p, allowRecreate)
    case Stuck(path) => Failure(PointerFailed(path))
    case Going(config, compared, _) =>
      match PlatformLoop(config, compared, p, pPaths)
      case Broken(path) => Failure(PointerFailed(path))
      case Completing(completed, _, _) => Success([NewChange(kind, name, completed, p)])
  }

  /** Preserve arguments that are no pointers make no difference, whatever other arguments there are and whatever is
      listed for them. */
  lemma NoPointersMakeNoDifference(kind: string, name: string, pKind: string, pName: string, t: Json, p: Json,
                                   rs: seq<string>, tPaths: seq<string>, pPaths: seq<string>, allowRecreate: bool)
    requires Slashed(pPaths) && forall k :: 0 <= k < |tPaths| && NoPointer(tPaths[k]) ==> AnyPrefix(rs, tPaths[k])
    ensures LoopsOutcome(kind, name, pKind, pName, t, p, rs, tPaths, pPaths, allowRecreate) ==
            LoopsOutcome(kind, name, pKind, pName, t, p, PointersIn(rs), PointersIn(tPaths), pPaths, allowRecreate)
    ensures PreserveAll(t, p, PointersIn(rs)) == PreserveAll(t, p, rs)
  {
    hide TemplateLoop, PlatformLoop, PreserveAll, NoPointer, AnyPrefix, PointersIn;
    OnlyPointersPreserve(t, p, rs);
    TemplateLoopIgnores(kind, t, p, rs, tPaths);
    var first := TemplateLoop(kind, t, p, rs, tPaths);
    var second := TemplateLoop(kind, t, p, PointersIn(rs), PointersIn(tPaths));
    if first.Going? { PlatformLoopAlike(first.config, first.compared, second.compared, p, pPaths); }
  }

  /** If all of them are no pointers, the comparison is the one without any argument. */
  lemma NoPointersAtAll(kind: string, name: string, pKind: string, pName: string, t: Json, p: Json, p1: Json,
                        rs: seq<string>, walk: seq<string>, tPaths: seq<string>, pPaths: seq<string>,
                        allowRecreate: bool)
    requires NoPointers(rs) && Slashed(walk) && Slashed(pPaths)
    requires walk <= tPaths && forall k :: |walk| <= k < |tPaths| ==> AnyPrefix(rs, tPaths[k])
    ensures LoopsOutcome(kind, name, pKind, pName, PreserveAll(t, p, rs), p1, rs, tPaths, pPaths, allowRecreate) ==
            LoopsOutcome(kind, name, pKind, pName, t, p1, [], walk, pPaths, allowRecreate)
  {
    hide LoopsOutcome, PreserveAll, NoPointer, AnyPrefix, PointersIn;
    var more := tPaths[|walk|..];
    RootPreserves(t, p, rs);
    forall k | 0 <= k < |more| ensures NoPointer(more[k]) {
      assert AnyPrefix(rs, tPaths[|walk| + k]);
      NoPointerIsNoPrefix(rs, more[k]);
    }
    NoneArePointers(rs);
    NoneArePointers(more);
    AllArePointers(walk);
    PointersInConcat(walk, more);
    assert tPaths == walk + more && walk + [] == walk;
    NoPointersMakeNoDifference(kind, name, pKind, pName, t, p1, rs, tPaths, pPaths, allowRecreate);
  }

  /** The empty path switches the comparison off: nothing is dropped, copied, or found to be immutable. */
  lemma EmptyPathComparesNothing(kind: string, name: string, pKind: string, pName: string, t: Json, p: Json,
                                 rs: seq<string>, tPaths: seq<string>, pPaths: seq<string>, allowRecreate: bool)
    requires "" in rs && forall k :: 0 <= k < |pPaths| ==> pPaths[k] in tPaths
    ensures LoopsOutcome(kind, name, pKind, pName, t, p, rs, tPaths, pPaths, allowRecreate) ==
            Success([NewChange(kind, name, t, p)])
  {
    hide TemplateLoop, PlatformLoop;
    TemplateLoopPreservesAll(kind, t, p, rs, tPaths);
    PlatformLoopSkipsAll(t, TemplateLoop(kind, t, p, rs, tPaths).compared, p, pPaths);
  }

  /** What a prepared document has, the platform's document had. */
  lemma PreparedIsListed(tPaths: seq<string>, pPaths: seq<string>, config: Json, unmanaged: set<string>,
                         lastApplied: Json)
    requires AllOf(tPaths, config) && PlainAnnotations(config) && PlainApiVersion(lastApplied)
    requires IsWalk(pPaths, Prepared(config, unmanaged, lastApplied))
    ensures forall k :: 0 <= k < |pPaths| ==> pPaths[k] in tPaths
  {
    hide Enc, Dec, Get, IsWalk, Prepared, PlainAnnotations;
    WalkIsExact(pPaths, Prepared(config, unmanaged, lastApplied));
    forall k | 0 <= k < |pPaths| ensures pPaths[k] in tPaths {
      assert PointerInto(pPaths[k], Prepared(config, unmanaged, lastApplied));
      PreparedHas(config, unmanaged, lastApplied, Dec(pPaths[k]));
    }
  }

  /** What preparing two documents relies on: plain values where the comparison edits the platform's document, and
      preserved positions that can be preserved and are somewhere else. */
  ghost predicate WellPrepared(t: Snapshot, p: Snapshot, preservePaths: seq<string>) {
    && PlainAnnotations(p.config) && PlainApiVersion(p.lastApplied)
    && Preservable(t.config, p.config, preservePaths) && KeepAway(preservePaths)
  }

  /** The conditions under which a comparison means what it should. None of them is checked by the code. */
  ghost predicate WellBehaved(t: Snapshot, p: Snapshot, preservePaths: seq<string>) {
    && WellPrepared(t, p, preservePaths)
    && NothingHidden(TemplateDocument(t, p, preservePaths), PlatformDocument(t, p), preservePaths)
    && DropsMembersOnly(TemplateDocument(t, p, preservePaths), PlatformDocument(t, p))
  }

  /** r is what the two loops make of the prepared documents, with path lists that the program may have made. */
  ghost predicate ResultOf(t: Snapshot, p: Snapshot, rs: seq<string>, allowRecreate: bool, tw: seq<string>,
                           pw: seq<string>, r: Outcome) {
    && PreparedList(tw, t.config, TemplateDocument(t, p, rs), p.config, rs) && Walkable(pw, PlatformDocument(t, p))
    && r == LoopsOutcome(t.kind, t.name, p.kind, p.name, TemplateDocument(t, p, rs), PlatformDocument(t, p), rs, tw, pw,
                         allowRecreate)
  }

  /** What is known about a comparison of two parsed resources: under the conditions, it is correct; and in any case,
      as long as the annotations are plain, it reports the prepared platform document as the current state, and, if the
      arguments are readable, it is what the two loops make of the prepared documents in some order. Arguments that are
      no pointers have no part in it. */
  ghost predicate Compares(t: Snapshot, p: Snapshot, rs: seq<string>, allowRecreate: bool, r: Outcome) {
    && (WellBehaved(t, p, rs) ==>
          Correct(t.kind, t.name, TemplateDocument(t, p, rs), PlatformDocument(t, p), allowRecreate, r))
    && (PlainAnnotations(p.config) && PlainApiVersion(p.lastApplied) && r.Success? ==>
          CurrentIs(PlatformDocument(t, p), r.value))
    && (PlainAnnotations(p.config) && PlainApiVersion(p.lastApplied) && Usable(rs) ==>
          exists tw, pw :: ResultOf(t, p, PointersIn(rs), allowRecreate, tw, pw, r))
  }

  /** Both items are as parsing leaves them, and the platform's can be prepared without failure. */
  ghost predicate Preparable(templateItem: ResourceItem, platformItem: ResourceItem)
    reads templateItem, platformItem
  {
    && templateItem.InStep() && platformItem.InStep()
    && PlainAnnotations(platformItem.config) && PlainApiVersion(platformItem.lastApplied)
  }

  lemma PreparableMeans(templateItem: ResourceItem, platformItem: ResourceItem)
    ensures Preparable(templateItem, platformItem) ==>
              && templateItem.InStep() && platformItem.InStep() && IsWalk(templateItem.paths, templateItem.config)
              && PlainAnnotations(platformItem.config) && PlainApiVersion(platformItem.lastApplied)
  {
    hide IsWalk, PlainAnnotations, PlainApiVersion;
  }

  /** The preserve arguments that do not name a part of the document. */
  lemma SpecialArguments(kind: string, name: string, pKind: string, pName: string, t: Json, p: Json, lastApplied: Json,
                         unmanaged: set<string>, p1: Json, rs: seq<string>, walk: seq<string>, tPaths: seq<string>,
                         pPaths: seq<string>, allowRecreate: bool)
    requires IsWalk(walk, t) && IsWalk(pPaths, p1) && p1 == Prepared(p, unmanaged, lastApplied)
    requires PlainAnnotations(p) && PlainApiVersion(lastApplied)
    requires walk <= tPaths && forall k :: |walk| <= k < |tPaths| ==> AnyPrefix(rs, tPaths[k])
    requires "" in rs ==> AllOf(tPaths, p)
    ensures NoPointers(rs) ==>
              LoopsOutcome(kind, name, pKind, pName, PreserveAll(t, p, rs), p1, rs, tPaths, pPaths, allowRecreate) ==
              LoopsOutcome(kind, name, pKind, pName, t, p1, [], walk, pPaths, allowRecreate)
    ensures "" in rs ==>
              LoopsOutcome(kind, name, pKind, pName, PreserveAll(t, p, rs), p1, rs, tPaths, pPaths, allowRecreate) ==
              Success([NewChange(kind, name, PreserveAll(t, p, rs), p1)])
    ensures LoopsOutcome(kind, name, pKind, pName, PreserveAll(t, p, rs), p1, rs, tPaths, pPaths, allowRecreate) ==
            LoopsOutcome(kind, name, pKind, pName, PreserveAll(t, p, rs), p1, PointersIn(rs), PointersIn(tPaths),
                         pPaths, allowRecreate)
  {
    hide LoopsOutcome, PreserveAll, Prepared, PlainAnnotations, PlainApiVersion, IsWalk, AllOf, NoPointers, NoPointer,
      AnyPrefix, PointersIn;
    WalkIsSlashed(walk, t);
    WalkIsSlashed(pPaths, p1);
    NoPointersMakeNoDifference(kind, name, pKind, pName, PreserveAll(t, p, rs), p1, rs, tPaths, pPaths, allowRecreate);
    if NoPointers(rs) { NoPointersAtAll(kind, name, pKind, pName, t, p, p1, rs, walk, tPaths, pPaths, allowRecreate); }
    if "" in rs {
      PreparedIsListed(tPaths, pPaths, p, unmanaged, lastApplied);
      EmptyPathComparesNothing(kind, name, pKind, pName, PreserveAll(t, p, rs), p1, rs, tPaths, pPaths, allowRecreate);
    }
  }

  lemma WalkableIsWalk(paths: seq<string>, j: Json)
    ensures Walkable(paths, j) ==> IsWalk(paths, j)
  {
  }

  lemma IsResult(t: Snapshot, p: Snapshot, rs: seq<string>, allowRecreate: bool, tPaths: seq<string>,
                 pPaths: seq<string>)
    requires PreparedList(PointersIn(tPaths), t.config, TemplateDocument(t, p, rs), p.config, PointersIn(rs))
    requires Walkable(pPaths, PlatformDocument(t, p))
    ensures ResultOf(t, p, PointersIn(rs), allowRecreate, PointersIn(tPaths), pPaths,
                     LoopsOutcome(t.kind, t.name, p.kind, p.name, TemplateDocument(t, p, rs), PlatformDocument(t, p),
                                  PointersIn(rs), PointersIn(tPaths), pPaths, allowRecreate))
  {
    hide PreparedList, Walkable, LoopsOutcome, PreserveAll, Prepared;
    OnlyPointersPreserve(t.config, p.config, rs);
  }

  lemma RootPreserves(t: Json, p: Json, rs: seq<string>)
    requires NoPointers(rs)
    ensures PreserveAll(t, p, rs) == t
  {
    RootPreservesNothing(t, p, rs);
  }

  method CalculateChanges(templateItem: ResourceItem, platformItem: ResourceItem, preservePaths: seq<string>,
                          allowRecreate: bool)
    returns (r: Outcome)
    requires templateItem != platformItem
    modifies templateItem`config, templateItem`paths, platformItem`config, platformItem`paths
    ensures r.Success? ==> WellFormed(templateItem.kind, templateItem.name, allowRecreate, r.value)
    ensures r.Success? ==> CurrentIs(platformItem.config, r.value)
    ensures ImmutablesPreserved(templateItem.kind, preservePaths) ==>
              if r.Success? then |r.value| == 1 else !r.error.Immutable?
    ensures r.Failure? ==> r.error.Immutable? || r.error.PointerFailed?
    ensures r == LoopsOutcome(templateItem.kind, templateItem.name, platformItem.kind, platformItem.name,
                              PreserveAll(old(templateItem.config), old(platformItem.config), preservePaths),
                              platformItem.config, preservePaths, templateItem.paths, platformItem.paths, allowRecreate)
            || (r.Failure? && !old(platformItem.InStep() && PlainAnnotations(platformItem.config)
                                   && PlainApiVersion(platformItem.lastApplied)))
    ensures old(templateItem.InStep() && platformItem.InStep()) &&
            WellBehaved(old(templateItem.Snap()), old(platformItem.Snap()), preservePaths) ==>
              Correct(templateItem.kind, templateItem.name,
                      TemplateDocument(old(templateItem.Snap()), old(platformItem.Snap()), preservePaths),
                      PlatformDocument(old(templateItem.Snap()), old(platformItem.Snap())), allowRecreate, r)
    ensures old(Preparable(templateItem, platformItem)) ==>
              && platformItem.config == PlatformDocument(old(templateItem.Snap()), old(platformItem.Snap()))
              && Walkable(platformItem.paths, platformItem.config)
    ensures old(Preparable(templateItem, platformItem)) && Usable(preservePaths) ==>
              ResultOf(old(templateItem.Snap()), old(platformItem.Snap()), PointersIn(preservePaths), allowRecreate,
                       PointersIn(templateItem.paths), platformItem.paths, r)
    ensures old(Preparable(templateItem, platformItem)) && NoPointers(preservePaths) ==>
              r == LoopsOutcome(templateItem.kind, templateItem.name, platformItem.kind, platformItem.name,
                                old(templateItem.config), platformItem.config, [], old(templateItem.paths),
                                platformItem.paths, allowRecreate)
    ensures old(Preparable(templateItem, platformItem)) && "" in preservePaths ==>
              r == Success([NewChange(templateItem.kind, templateItem.name,
                                      PreserveAll(old(templateItem.config), old(platformItem.config), preservePaths),
                                      platformItem.config)])
  {
    hide *;
    ghost var ts, ps := templateItem.Snap(), platformItem.Snap();
    ghost var sound := templateItem.InStep() && platformItem.InStep() && WellBehaved(ts, ps, preservePaths);
    ghost var t, p := TemplateDocument(ts, ps, preservePaths), PlatformDocument(ts, ps);
    ghost var ready, walk := Preparable(templateItem, platformItem), templateItem.paths;
    ghost var t0, p0 := templateItem.config, platformItem.config;
    PreparableMeans(templateItem, platformItem);
    BehavesWell(templateItem, platformItem, preservePaths);
    templateItem.PrepareForComparisonWithPlatformItem(platformItem, preservePaths);
    ghost var start := templateItem.config;
    var prepared := platformItem.PrepareForComparisonWithTemplateItem(templateItem);
    if prepared.Failure? {
      return Failure(prepared.error);
    }
    ghost var tPaths := templateItem.paths;
    WalkableIsWalk(platformItem.paths, platformItem.config);
    if sound { ReadyToCompare(ts, ps, tPaths, preservePaths); }
    if ready {
      SpecialArguments(templateItem.kind, templateItem.name, platformItem.kind, platformItem.name, t0, p0,
                       platformItem.lastApplied, Unmanaged(platformItem.annotations.Keys, templateItem.annotations.Keys,
                                                           platformItem.lastAppliedAnnotations.Keys),
                       platformItem.config, preservePaths, walk, tPaths, platformItem.paths, allowRecreate);
      if Usable(preservePaths) { IsResult(ts, ps, preservePaths, allowRecreate, tPaths, platformItem.paths); }
    }
    OutcomeCases(templateItem.kind, templateItem.name, platformItem.kind, platformItem.name, start, platformItem.config,
                 preservePaths, tPaths, platformItem.paths, allowRecreate);
    var stop, comparedPaths, addedPaths :=
      CompareTemplatePaths(templateItem, platformItem, preservePaths, allowRecreate);
    if stop.Some? {
      if sound { StoppedIsCorrect(templateItem.kind, templateItem.name, t, p, allowRecreate, stop.value); }
      WellFormedPair(templateItem.kind, templateItem.name, allowRecreate, stop.value);
      return stop.value;
    }
    ghost var mid := templateItem.config;
    if sound {
      FirstLoopDone(t, p, templateItem.kind, tPaths, platformItem.paths, preservePaths, addedPaths, comparedPaths, mid);
    }
    var completed, deletedPaths :=
      ComparePlatformPaths(templateItem, platformItem, comparedPaths, t, mid, tPaths, preservePaths);
    if sound {
      BothLoopsAreCorrect(templateItem.kind, templateItem.name, t, p, tPaths, platformItem.paths, preservePaths,
                          addedPaths, comparedPaths, deletedPaths, mid, templateItem.config, allowRecreate, completed);
    }
    if completed.Failure? {
      return Failure(completed.error);
    }
    var c := NewChange(templateItem.kind, templateItem.name, templateItem.config, platformItem.config);
    WellFormedChange(templateItem.kind, templateItem.name, templateItem.config, platformItem.config, allowRecreate);
    return Success([c]);
  }

  lemma OutcomeCases(kind: string, name: string, pKind: string, pName: string, t: Json, p: Json, rs: seq<string>,
                     tPaths: seq<string>, pPaths: seq<string>, allowRecreate: bool)
    ensures var first := TemplateLoop(kind, t, p, rs, tPaths);
            var outcome := LoopsOutcome(kind, name, pKind, pName, t, p, rs, tPaths, pPaths, allowRecreate);
            StopOf(kind, name, pKind, pName, p, first, allowRecreate) ==
            (if first.Going? then None else Some(outcome)) &&
            (first.Going? ==>
               var second := PlatformLoop(first.config, first.compared, p, pPaths);
               outcome == if second.Broken? then Failure(PointerFailed(second.path))
               else Success([NewChange(kind, name, second.config, p)]))
  {
    hide TemplateLoop, PlatformLoop;
  }

  /** What the second loop needs to know about the first one. */
  ghost predicate SecondLoopReady(t: Json, p: Json, mid: Json, tPaths: seq<string>, pPaths: seq<string>,
                                  rs: seq<string>,
                                  compared: set<string>) {
    && Comparable(t, p, tPaths, rs) && IsWalk(pPaths, p) && PlainAnnotations(p) && Edited(t, p, tPaths, mid)
    && forall k :: 0 <= k < |pPaths| ==> (pPaths[k] in compared <==> Has(t, Dec(pPaths[k])))
  }

  lemma NothingCompleted(cfg: Json, compared: set<string>, p: Json, paths: seq<string>)
    ensures PlatformLoop(cfg, compared, p, paths[..0]) == Completing(cfg, compared, [])
  {
  }

  lemma NothingTold(t: Json, p: Json, tPaths: seq<string>, pPaths: seq<string>, rs: seq<string>, mid: Json,
                    compared: set<string>)
    requires SecondLoopReady(t, p, mid, tPaths, pPaths, rs, compared)
    ensures BeforePlatformPath(t, p, tPaths, pPaths, 0, rs, [], mid, mid)
    ensures forall k :: 0 <= k < |pPaths| ==> (pPaths[k] in compared <==> Has(t, Dec(pPaths[k])))
  {
    assert pPaths[..0] == [];
  }

  /** Every platform path is passed over, an empty collection, or reported. */
  lemma {:induction false} PlatformCases(t: Json, p: Json, path: string, deleted: seq<string>)
    requires PointerInto(path, p)
    ensures var q := Dec(path);
            && path == Enc(q) && Has(p, q) && Get(p, q).Some?
            && (Has(t, q) || AnyPrefix(deleted, path) || Get(p, q) == Some(Null) ==> PassedOver(t, p, q, deleted))
            && (q == ANNOTATIONS && !EmptyCollection(Get(p, q).value) ==> PassedOver(t, p, q, deleted))
            && (!Has(t, q) && Get(p, q) != Some(Null) && !EmptyCollection(Get(p, q).value) ==> Reported(t, p, q))
  {
  }

  lemma EmptyCases(val: Json)
    ensures val.Obj? && |val.fields| == 0 ==> val == Obj(map[]) && EmptyCollection(val)
    ensures val.Arr? && |val.items| == 0 ==> val == Arr([]) && EmptyCollection(val)
    ensures EmptyCollection(val) ==> (val.Obj? && |val.fields| == 0) || (val.Arr? && |val.items| == 0)
  {
  }

  lemma {:induction false} PlatformDistinct(t: Json, p: Json, tPaths: seq<string>, pPaths: seq<string>, i: nat,
                                            rs: seq<string>,
                                            deleted: seq<string>, mid: Json, cfg: Json)
    requires i < |pPaths| && BeforePlatformPath(t, p, tPaths, pPaths, i, rs, deleted, mid, cfg)
    ensures forall k :: i < k < |pPaths| ==> pPaths[k] != pPaths[i]
    ensures PlainAnnotations(p) && Has(p, ANNOTATIONS) ==> Get(p, ANNOTATIONS).value.Obj?
  {
    WalkIsExact(pPaths, p);
  }

  lemma {:induction false} BehavesWell(templateItem: ResourceItem, platformItem: ResourceItem, rs: seq<string>)
    ensures templateItem.InStep() && WellBehaved(templateItem.Snap(), platformItem.Snap(), rs) ==>
              && IsWalk(templateItem.paths, templateItem.config)
              && PlainAnnotations(platformItem.config) && PlainApiVersion(platformItem.lastApplied)
              && AllProper(rs)
    ensures var t, p := templateItem.Snap(), platformItem.Snap();
            && t.kind == templateItem.kind && t.name == templateItem.name && t.config == templateItem.config
            && p.kind == platformItem.kind && p.name == platformItem.name && p.config == platformItem.config
    ensures TemplateDocument(templateItem.Snap(), platformItem.Snap(), rs) ==
            PreserveAll(templateItem.config, platformItem.config, rs)
    ensures PlatformDocument(templateItem.Snap(), platformItem.Snap()) ==
            Prepared(platformItem.config,
                     Unmanaged(platformItem.annotations.Keys, templateItem.annotations.Keys,
                               platformItem.lastAppliedAnnotations.Keys),
                     platformItem.lastApplied)
  {
    hide PreserveAll, Prepared, NothingHidden, IsWalk, PlainAnnotations, PlainApiVersion;
  }

  lemma PreparedHas(config: Json, unmanaged: set<string>, lastApplied: Json, q: Position)
    requires PlainAnnotations(config) && PlainApiVersion(lastApplied)
    ensures Has(Prepared(config, unmanaged, lastApplied), q) ==> Has(config, q)
  {
    PreparedEffect(config, unmanaged, lastApplied);
    FixApiVersionEffect(config, lastApplied);
    WithoutAnnotationsEffect(FixApiVersion(config, lastApplied), unmanaged);
    var fixed := FixApiVersion(config, lastApplied);
    assert LabelAt(WithoutAnnotations(fixed, unmanaged), q) ==
           if InAnnotations(q, unmanaged) then None else LabelAt(fixed, q);
  }

  lemma {:induction false} PreparedElsewhere(config: Json, unmanaged: set<string>, lastApplied: Json, r: Position)
    requires PlainAnnotations(config) && PlainApiVersion(lastApplied)
    requires Unrelated(r, ANNOTATIONS) && Unrelated(r, API_VERSION)
    ensures Get(Prepared(config, unmanaged, lastApplied), r) == Get(config, r)
  {
    PreparedEffect(config, unmanaged, lastApplied);
    forall s ensures LabelAt(Prepared(config, unmanaged, lastApplied), r + s) == LabelAt(config, r + s) {
      if ANNOTATIONS <= r + s { PrefixesOfOne(r, ANNOTATIONS, r + s); }
      if API_VERSION == r + s { PrefixesOfOne(r, API_VERSION, r + s); }
    }
    SameBelow(Prepared(config, unmanaged, lastApplied), config, r);
  }

  /** The preparation establishes what the loops rely on. */
  lemma ReadyToCompare(t: Snapshot, p: Snapshot, paths: seq<string>, rs: seq<string>)
    requires WellBehaved(t, p, rs) && PreparedList(paths, t.config, TemplateDocument(t, p, rs), p.config, rs)
    ensures Comparable(TemplateDocument(t, p, rs), PlatformDocument(t, p), paths, rs)
    ensures PlainAnnotations(PlatformDocument(t, p))
  {
    hide Enc, Dec, Get, PreserveAll, Prepared, NothingHidden, PlainAnnotations, PlainApiVersion;
    var t1, p1 := TemplateDocument(t, p, rs), PlatformDocument(t, p);
    var unmanaged := Unmanaged(p.annotations, t.annotations, p.lastAppliedAnnotations);
    PreparedEffect(p.config, unmanaged, p.lastApplied);
    PreserveAllEffect(t.config, p.config, rs);
    forall i | 0 <= i < |rs| ensures Agree(t1, p1, Dec(rs[i])) {
      assert Agree(t1, p.config, Dec(rs[i]));
      PreparedElsewhere(p.config, unmanaged, p.lastApplied, Dec(rs[i]));
    }
    forall q ensures Has(p1, q) ==> Has(p.config, q) { PreparedHas(p.config, unmanaged, p.lastApplied, q); }
    forall i | 0 <= i < |paths| ensures ListsPath(paths[i], t1, p1, rs) {
      assert ListsPath(paths[i], t1, p.config, rs);
    }
  }

  lemma StoppedIsCorrect(kind: string, name: string, t: Json, p: Json, allowRecreate: bool, r: Outcome)
    requires StoppedEarly(kind, name, t, p, allowRecreate, r)
    ensures Correct(kind, name, t, p, allowRecreate, r)
  {
    hide AnyMismatch, DropsMembersOnly, KeepsMembersOnly, Mismatch, Recreated;
  }

  lemma WellFormedPair(kind: string, name: string, allowRecreate: bool, r: Outcome)
    requires r.Success? ==> allowRecreate && DeletesAndCreates(kind, name, r.value)
    ensures r.Success? ==> WellFormed(kind, name, allowRecreate, r.value)
  {
  }

  lemma WellFormedChange(kind: string, name: string, t: Json, p: Json, allowRecreate: bool)
    ensures WellFormed(kind, name, allowRecreate, [NewChange(kind, name, t, p)])
    ensures CurrentIs(p, [NewChange(kind, name, t, p)])
  {
  }

  lemma FirstLoopDone(t: Json, p: Json, kind: string, tPaths: seq<string>, pPaths: seq<string>, rs: seq<string>,
                      added: seq<string>, compared: set<string>, mid: Json)
    requires Comparable(t, p, tPaths, rs) && IsWalk(pPaths, p) && PlainAnnotations(p)
    requires Edited(t, p, tPaths, mid) && Noted(t, p, kind, tPaths, added, compared)
    ensures SecondLoopReady(t, p, mid, tPaths, pPaths, rs, compared)
  {
    hide Enc, Dec, Get, Comparable, Edited, Noted, PlainAnnotations, IsWalk;
    forall k | 0 <= k < |pPaths| ensures pPaths[k] in compared <==> Has(t, Dec(pPaths[k])) {
      PlatformPointer(p, pPaths, k);
      ComparedMeaning(t, p, kind, tPaths, rs, added, compared, pPaths[k]);
    }
  }

  lemma BothLoopsAreCorrect(kind: string, name: string, t: Json, p: Json, tPaths: seq<string>, pPaths: seq<string>,
                            rs: seq<string>, added: seq<string>, compared: set<string>, deleted: seq<string>,
                            mid: Json, cfg: Json, allowRecreate: bool, completed: Result<(), Error>)
    requires Comparable(t, p, tPaths, rs) && IsWalk(pPaths, p)
    requires Edited(t, p, tPaths, mid) && Noted(t, p, kind, tPaths, added, compared)
    requires completed.Success? ==> BeforePlatformPath(t, p, tPaths, pPaths, |pPaths|, rs, deleted, mid, cfg)
    requires completed.Failure? ==> completed.error.PointerFailed? && Unkeepable(t, p, completed.error.path)
    ensures Correct(kind, name, t, p, allowRecreate,
                    if completed.Success? then Success([NewChange(kind, name, cfg, p)]) else Failure(completed.error))
  {
    hide Enc, Dec, Get, Merge;
    assert pPaths[..|pPaths|] == pPaths;
    FirstLoopTold(t, p, kind, tPaths, rs, added, compared);
    if completed.Success? {
      LoopsAmountToMerge(t, p, kind, rs, tPaths, pPaths, added, compared, deleted, mid, cfg);
    }
  }
}
