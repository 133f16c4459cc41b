/** Resources parsed from a template or from the cluster (pkg/openshift/item.go). */
module Items {
  import opened Wrappers
  import opened Text
  import opened Decimal
  import opened Documents
  import opened Pointers
  import opened Merging
  import opened Walking
  import opened Preparing
  import opened Platform
  import opened Comparison
  import opened Managed

  datatype Error =
    | MissingField(path: string)
    | WrongType(path: string)
    | PointerFailed(path: string)
    | Immutable(path: string, kind: string, name: string)
    | InvalidPreserve(argument: string)

  /** The parts of an item that a comparison starts from. */
  datatype Snapshot = Snapshot(
    kind: string,
    name: string,
    config: Json,
    annotations: set<string>,
    lastApplied: Json,
    lastAppliedAnnotations: set<string>)

  class ResourceItem {
    var kind: string
    var name: string
    var annotations: map<string, Json>
    var paths: seq<string>
    var config: Json
    var lastApplied: Json
    var lastAppliedAnnotations: map<string, Json>
    var comparable: bool

    constructor ()
      ensures paths == []
    {
      kind, name, annotations, paths, config := "", "", map[], [], Null;
      lastApplied, lastAppliedAnnotations, comparable := Null, map[], false;
    }

    function Snap(): Snapshot
      reads this
    {
      Snapshot(kind, name, config, annotations.Keys, lastApplied, lastAppliedAnnotations.Keys)
    }

    /** The path list is what walking the document may yield, and the annotations are those of the document. */
    ghost predicate InStep()
      reads this
    {
      Walkable(paths, config) && annotations == AnnotationsOf(config)
    }

    // ---- the walk ----

    method WalkMap(m: Json, pointer: string)
      requires m.Obj?
      modifies this`paths
      ensures Walked(old(paths), paths, m, pointer, Tokens(m))
      decreases m, 0
    {
      var keys := m.fields.Keys;
      ghost var done: set<string> := {};
      WalkedNothing(paths, m, pointer);
      while keys != {}
        invariant keys + done == m.fields.Keys && keys !! done
        invariant Walked(old(paths), paths, m, pointer, done)
        decreases keys
      {
        var k :| k in keys;
        ghost var before := paths;
        HandleKeyValue(k, m.fields[k], pointer, m);
        WalkedBoth(old(paths), before, paths, m, pointer, done, {k});
        keys, done := keys - {k}, done + {k};
      }
      assert done == Tokens(m);
    }

    method WalkArray(a: Json, pointer: string)
      requires a.Arr?
      modifies this`paths
      ensures Walked(old(paths), paths, a, pointer, Tokens(a))
      decreases a, 0
    {
      WalkedNothing(paths, a, pointer);
      assert IndexTokens(0) == {};
      for i := 0 to |a.items|
        invariant Walked(old(paths), paths, a, pointer, IndexTokens(i))
      {
        ghost var before := paths;
        ParseItoa(i);
        HandleKeyValue(Itoa(i), a.items[i], pointer, a);
        NextIndexToken(i);
        IndexTokensAscend(a, i);
        WalkedBoth(old(paths), before, paths, a, pointer, IndexTokens(i), {Itoa(i)});
      }
    }

    /** Lists one child of the container, then what is below it. */
    method HandleKeyValue(k: string, v: Json, pointer: string, ghost container: Json)
      requires HasChild(container, k) && Child(container, k) == v
      modifies this`paths
      ensures Walked(old(paths), paths, container, pointer, {k})
      decreases v, 1
    {
      var absolutePointer := pointer + "/" + JsonPointerPath(k);
      paths := paths + [absolutePointer];
      ghost var before := paths;
      WalkedNothing(paths, v, absolutePointer);
      if v.Arr? {
        WalkArray(v, absolutePointer);
      } else if v.Obj? {
        WalkMap(v, absolutePointer);
      }
      assert Walked(before, paths, v, absolutePointer, Tokens(v));
      WalkedChild(old(paths), paths, container, pointer, k);
    }

    // ---- parsing ----

    /** Initialises the item from a document. lastApplied is the last applied configuration that the
        document carries as an annotation, already parsed; an empty object when it carries none. */
    method ParseConfig(m: Json, lastApplied: Json) returns (r: Result<(), Error>)
      requires m.Obj? && lastApplied.Obj? && paths == []
      modifies this
      ensures r.Success? <==> Parsable(m, lastApplied)
      ensures r.Success? ==>
                && IdentityOf(m, kind, name) && comparable == IsComparable(m)
                && this.lastApplied == lastApplied && lastAppliedAnnotations == AnnotationsOf(lastApplied)
                && Cleaned(m, config) && InStep()
    {
      hide Enc, Get, Cleaned, MatchesRegexField, Walkable;
      r := ReadFields(m, lastApplied);
      if r.Failure? {
        return r;
      }
      ghost var simple := RemoveSimpleFields(m);
      WalkConfig();
      RemoveRegexFields();
      CleanedInTwoSteps(m, simple, config);
      AnnotationsAreKept(m, config);
    }

    method ReadFields(m: Json, lastApplied: Json) returns (r: Result<(), Error>)
      modifies this
      ensures paths == old(paths)
      ensures r.Success? <==> Parsable(m, lastApplied)
      ensures r.Success? ==>
                && IdentityOf(m, kind, name) && comparable == IsComparable(m) && annotations == AnnotationsOf(m)
                && this.lastApplied == lastApplied && lastAppliedAnnotations == AnnotationsOf(lastApplied)
    {
      hide *;
      ParsableMeans(m, lastApplied);
      r := ReadIdentity(m);
      if r.Failure? {
        return r;
      }
      var annotationsRead := ReadAnnotations(m);
      if annotationsRead.Failure? {
        return Failure(annotationsRead.error);
      }
      annotations := annotationsRead.value;
      this.lastApplied := lastApplied;
      var appliedRead := ReadAnnotations(lastApplied);
      if appliedRead.Failure? {
        return Failure(appliedRead.error);
      }
      lastAppliedAnnotations := appliedRead.value;
      return Success(());
    }

    method ReadIdentity(m: Json) returns (r: Result<(), Error>)
      modifies this`kind, this`name, this`comparable
      ensures r.Success? <==> Identifiable(m)
      ensures r.Success? ==> IdentityOf(m, kind, name) && comparable == IsComparable(m)
      ensures r.Success? <==>
              && IsString(Get(m, ["kind"]))
              && IsString(Get(m, if Has(m, ["metadata", "name"]) then ["metadata", "name"]
                              else ["metadata", "generateName"]))
              && (Get(m, ["kind"]) == Some(Str("Secret")) ==> IsString(Get(m, ["type"])))
      ensures r.Success? ==>
                && Get(m, ["kind"]) == Some(Str(kind))
                && Get(m, if Has(m, ["metadata", "name"]) then ["metadata", "name"]
                       else ["metadata", "generateName"]) == Some(Str(name))
                && (!comparable <==> kind == "Secret" &&
                                     (Get(m, ["type"]) == Some(Str("kubernetes.io/dockercfg")) ||
                                      Get(m, ["type"]) == Some(Str("kubernetes.io/service-account-token"))))
    {
      hide Get;
      var kindRead := ReadString(m, KIND);
      if kindRead.Failure? {
        return Failure(kindRead.error);
      }
      kind := kindRead.value;
      var nameRead := ReadString(m, if Has(m, NAME) then NAME else GENERATE_NAME);
      if nameRead.Failure? {
        return Failure(nameRead.error);
      }
      name := nameRead.value;
      comparable := true;
      if kind == "Secret" {
        var typeRead := ReadString(m, SECRET_TYPE);
        if typeRead.Failure? {
          return Failure(typeRead.error);
        }
        var irrelevant := Includes(IRRELEVANT_SECRETS, typeRead.value);
        comparable := !irrelevant;
      }
      return Success(());
    }

    method RemoveSimpleFields(m: Json) returns (ghost cleaned: Json)
      modifies this`config
      ensures config == cleaned && WithoutFields(m, cleaned, SIMPLE_FIELDS)
      ensures m.Obj? ==> config.Obj?
    {
      hide SIMPLE_FIELDS, Get, Delete;
      config := m;
      for i := 0 to |SIMPLE_FIELDS|
        invariant WithoutFields(m, config, SIMPLE_FIELDS[..i])
        invariant m.Obj? ==> config.Obj?
      {
        var field := SIMPLE_FIELDS[i];
        SimpleFieldsAreMembers(i);
        WithoutNextField(m, config, SIMPLE_FIELDS[..i], field);
        assert SIMPLE_FIELDS[..i + 1] == SIMPLE_FIELDS[..i] + [field];
        var edited := Delete(config, field);
        if edited.Some? {
          DeleteKeepsRoot(config, field);
          config := edited.value;
        }
      }
      assert SIMPLE_FIELDS[..|SIMPLE_FIELDS|] == SIMPLE_FIELDS;
      return config;
    }

    method WalkConfig()
      requires config.Obj? && paths == []
      modifies this`paths
      ensures Walkable(paths, config)
    {
      hide Walkable;
      WalkMap(config, "");
      WalkedFromRoot([], paths, config);
      assert paths[0..] == paths;
    }

    /** Deletes the fields that match the regular expression from the document, noting the indices of their
        paths; then deletes the paths by index, each index shifted by the number of deletions before it. */
    method RemoveRegexFields()
      requires Walkable(paths, config)
      modifies this`config, this`paths
      ensures paths == NotMatching(old(paths)) && Walkable(paths, config)
      ensures forall q :: LabelAt(config, q) == if MatchesRegexField(Enc(q)) then None else LabelAt(old(config), q)
    {
      hide Enc, Dec, MatchesRegexField, Get, Delete, IsWalk, WithoutMatches, Arranged, MatchIndices, NotMatching;
      ghost var j, walk := config, paths;
      NothingGone(j);
      NothingMatched(walk);
      assert walk[..0] == [];
      var deletedPathIndices: seq<nat> := [];
      for pathIndex := 0 to |paths|
        invariant paths == walk
        invariant WithoutMatches(j, config, walk[..pathIndex])
        invariant MatchIndices(walk, pathIndex, deletedPathIndices)
      {
        var path := paths[pathIndex];
        DeleteMatchAt(walk, j, config, pathIndex);
        OneMoreMatched(walk, pathIndex, deletedPathIndices);
        if MatchesRegexField(path) {
          var edited := Delete(config, Dec(path));
          if edited.Some? {
            config := edited.value;
          }
          deletedPathIndices := deletedPathIndices + [pathIndex];
        }
      }
      assert walk[..|walk|] == walk;
      RemoveIndices(deletedPathIndices, j);
      WalkOfRemaining(walk, j, config);
      FewerLists(paths, j, config);
    }

    method RemoveIndices(deletedPathIndices: seq<nat>, ghost j: Json)
      requires MatchIndices(paths, |paths|, deletedPathIndices)
      modifies this`paths
      ensures paths == NotMatching(old(paths))
      ensures Arranged(old(paths), j) ==> Arranged(paths, j)
    {
      hide MatchesRegexField, NotMatching, MatchIndices, Arranged, WithoutAt;
      ghost var walk, from := paths, 0;
      assert NotMatching(walk[..0]) == [] by { NoneMatchIn(walk); }
      assert walk[0..] == walk;
      var indexOffset: int := 0;
      for k := 0 to |deletedPathIndices|
        invariant indexOffset == -k
        invariant from == if k == 0 then 0 else deletedPathIndices[k - 1] + 1
        invariant from <= |walk| && paths == NotMatching(walk[..from]) + walk[from..]
        invariant |NotMatching(walk[..from])| == from - k
        invariant Arranged(walk, j) ==> Arranged(paths, j)
      {
        var pathIndex := deletedPathIndices[k];
        var deletionIndex := pathIndex + indexOffset;
        NextMatch(walk, deletedPathIndices, k, from);
        if Arranged(paths, j) { ArrangedWithout(paths, j, deletionIndex); }
        paths := WithoutAt(paths, deletionIndex);
        indexOffset := indexOffset - 1;
        from := pathIndex + 1;
      }
      NoMoreMatches(walk, deletedPathIndices, from);
    }

    // ---- preparation for a comparison ----

    /** Copies the platform's value to every preserved path of this template item. */
    method PrepareForComparisonWithPlatformItem(platformItem: ResourceItem, preservePaths: seq<string>)
      requires platformItem != this
      modifies this`config, this`paths
      ensures config == PreserveAll(old(config), platformItem.config, preservePaths)
      ensures old(paths) <= paths && forall k :: |old(paths)| <= k < |paths| ==> AnyPrefix(preservePaths, paths[k])
      ensures old(InStep()) && Usable(preservePaths) ==>
                PreparedList(PointersIn(paths), old(config), config, platformItem.config, PointersIn(preservePaths))
      ensures old(InStep()) && AllProper(preservePaths) ==>
                PreparedList(paths, old(config), config, platformItem.config, preservePaths)
      ensures "" in preservePaths ==> AllOf(paths, platformItem.config)
    {
      hide Enc, Dec, Get, Set, Delete, Walkable, AllOf, Walked, AnyPrefix, PreserveAll, Preparation, PreparedList,
        Usable, AllProper, PointersIn;
      ghost var usable, walk, t0 := InStep() && Usable(preservePaths), paths, config;
      NothingPreserved(config, platformItem.config);
      assert preservePaths[..0] == [];
      if usable { WalkableBegins(paths, config, platformItem.config); }
      for i := 0 to |preservePaths|
        invariant config == PreserveAll(t0, platformItem.config, preservePaths[..i])
        invariant usable ==> Preparation(paths, walk, config, platformItem.config, preservePaths[..i])
        invariant walk <= paths && forall k :: |walk| <= k < |paths| ==> AnyPrefix(preservePaths, paths[k])
        invariant "" in preservePaths[..i] ==> AllOf(paths, platformItem.config)
      {
        var path := preservePaths[i];
        ghost var t, p, rs := config, platformItem.config, preservePaths[..i];
        ghost var before := paths;
        assert preservePaths[..i + 1] == rs + [path];
        assert path in preservePaths;
        PreserveNext(t0, p, rs, path);
        RootIsThere(p);
        EmptyPointer();
        if path == "" { SetRoot(t, p); }
        if usable { UsableAt(preservePaths, i); }
        var platformItemVal := Get(platformItem.config, Dec(path));
        if platformItemVal.None? {
          var edited := Delete(config, Dec(path));
          if edited.Some? {
            config := edited.value;
          }
          if usable { PreparationAfterDelete(paths, walk, t, p, rs, path); }
        } else {
          var edited := Set(config, Dec(path), platformItemVal.value);
          if edited.Some? {
            config := edited.value;
            ListPreserved(path, platformItemVal.value);
            PathsAppended(before, paths, p, path, preservePaths);
            if usable { PreparationAfterSet(before, paths, walk, t, p, rs, path); }
          } else if usable {
            PreparationUnset(paths, walk, t, p, rs, path);
          }
        }
      }
      assert preservePaths[..|preservePaths|] == preservePaths;
      if usable { PreparationEnds(paths, walk, t0, config, platformItem.config, preservePaths); }
      ListedProperly(paths, walk, t0, config, platformItem.config, preservePaths);
    }

    /** Lists a preserved path, then what is below it. */
    method ListPreserved(path: string, v: Json)
      modifies this`paths
      ensures Walked(old(paths) + [path], paths, v, path, Tokens(v))
    {
      paths := paths + [path];
      WalkedNothing(paths, v, path);
      if v.Arr? {
        WalkArray(v, path);
      } else if v.Obj? {
        WalkMap(v, path);
      }
    }

    /** Fixes an outdated apiVersion and removes the annotations of this platform item that neither the
        template nor the last applied configuration has. */
    method PrepareForComparisonWithTemplateItem(templateItem: ResourceItem) returns (r: Result<(), Error>)
      requires templateItem != this
      modifies this`config, this`paths
      ensures old(InStep()) && PlainAnnotations(old(config)) && PlainApiVersion(lastApplied) ==>
                var unmanaged := Unmanaged(annotations.Keys, templateItem.annotations.Keys,
                                           lastAppliedAnnotations.Keys);
                && r.Success?
                && config == Prepared(old(config), unmanaged, lastApplied)
                && Walkable(paths, config)
                && (forall q :: q != ["apiVersion"] ==>
                                  LabelAt(config, q) ==
                                  if ["metadata", "annotations"] < q && q[2] in unmanaged then None
                                  else LabelAt(old(config), q))
                && Get(config, ["apiVersion"]) ==
                   (if Get(old(config), ["apiVersion"]) == Some(Str("extensions/v1beta1")) &&
                       Has(lastApplied, ["apiVersion"])
                    then Get(lastApplied, ["apiVersion"]) else Get(old(config), ["apiVersion"]))
      ensures r.Failure? ==> r.error.PointerFailed?
    {
      hide Walkable, Get;
      ghost var sound := InStep() && PlainAnnotations(config) && PlainApiVersion(lastApplied);
      ghost var unmanaged := Unmanaged(annotations.Keys, templateItem.annotations.Keys, lastAppliedAnnotations.Keys);
      if sound { PreparedEffect(config, unmanaged, lastApplied); }
      UseLastAppliedApiVersion();
      var unmanagedAnnotations := CollectUnmanaged(templateItem);
      r := RemoveAnnotations(unmanagedAnnotations);
    }

    method UseLastAppliedApiVersion()
      modifies this`config
      ensures config == FixApiVersion(old(config), lastApplied)
      ensures Get(config, ["apiVersion"]) ==
              if Get(old(config), ["apiVersion"]) == Some(Str("extensions/v1beta1")) && Has(lastApplied, ["apiVersion"])
              then Get(lastApplied, ["apiVersion"]) else Get(old(config), ["apiVersion"])
      ensures old(InStep()) && PlainAnnotations(old(config)) && PlainApiVersion(lastApplied)
              ==> InStep() && PlainAnnotations(config)
    {
      ghost var sound, config0 := InStep() && PlainAnnotations(config) && PlainApiVersion(lastApplied), config;
      FixedApiVersion(config, lastApplied);
      var apiVersion := Get(config, API_VERSION);
      if apiVersion.Some? {
        var lastAppliedApiVersion := Get(lastApplied, API_VERSION);
        if lastAppliedApiVersion.Some? {
          if apiVersion.value == Str("extensions/v1beta1") {
            var edited := Set(config, API_VERSION, lastAppliedApiVersion.value);
            if edited.Some? {
              config := edited.value;
            }
          }
        }
      }
      if sound { StillInStep(paths, config0, lastApplied, annotations); }
    }

    /** Deletes the given annotations from the document, and their pointers from the path list. */
    method RemoveAnnotations(unmanaged: seq<string>) returns (r: Result<(), Error>)
      requires Distinct(unmanaged)
      modifies this`config, this`paths
      ensures old(InStep()) && PlainAnnotations(old(config)) && Elements(unmanaged) <= annotations.Keys ==>
                && r.Success?
                && config == WithoutAnnotations(old(config), Elements(unmanaged))
                && Walkable(paths, config)
      ensures r.Failure? ==> r.error.PointerFailed?
    {
      hide Enc, Dec, IsWalk, Lacks, Arranged;
      ghost var sound := InStep() && PlainAnnotations(config) && Elements(unmanaged) <= annotations.Keys;
      ghost var config0, done: set<string> := config, {};
      LacksNothing(config);
      for i := 0 to |unmanaged|
        invariant done == Elements(unmanaged[..i])
        invariant sound ==> IsWalk(paths, config) && Lacks(config, config0, done)
        invariant sound ==> Arranged(paths, config0)
      {
        var a := unmanaged[i];
        var path := Enc(AnnotationAt(a));
        DecEnc(AnnotationAt(a));
        assert a !in done by { NotAmong(unmanaged, i); }
        if sound { RemovalStep(paths, config0, config, done, a); }
        var edited := Delete(config, Dec(path));
        if edited.None? {
          assert !sound;
          return Failure(PointerFailed(path));
        }
        config := edited.value;
        if sound { ArrangedWithoutFirst(paths, config0, path); }
        paths := Remove(paths, path);
        assert unmanaged[..i + 1] == unmanaged[..i] + [a];
        done := done + {a};
      }
      if sound {
        assert unmanaged[..|unmanaged|] == unmanaged;
        LacksLists(paths, config0, config, done);
        RemovalDone(config0, config, done);
      }
      return Success(());
    }

    method CollectUnmanaged(templateItem: ResourceItem) returns (unmanaged: seq<string>)
      ensures Distinct(unmanaged)
      ensures Elements(unmanaged) ==
              Unmanaged(annotations.Keys, templateItem.annotations.Keys, lastAppliedAnnotations.Keys)
      ensures forall a :: a in unmanaged <==>
                          a in annotations && a !in templateItem.annotations && a !in lastAppliedAnnotations
    {
      unmanaged := [];
      var keys := annotations.Keys;
      while keys != {}
        invariant keys <= annotations.Keys
        invariant Distinct(unmanaged) && forall a :: a in unmanaged ==> a !in keys
        invariant Elements(unmanaged) ==
                  Unmanaged(annotations.Keys - keys, templateItem.annotations.Keys, lastAppliedAnnotations.Keys)
        decreases keys
      {
        var a :| a in keys;
        keys := keys - {a};
        if a in templateItem.annotations {
          continue;
        }
        if a in lastAppliedAnnotations {
          continue;
        }
        unmanaged := unmanaged + [a];
      }
    }

    method IsImmutableField(field: string) returns (immutable: bool)
      ensures immutable <==> field in ImmutableFields(kind)
    {
      var fields := ImmutableFields(kind);
      for i := 0 to |fields|
        invariant field !in fields[..i]
      {
        if fields[i] == field {
          return true;
        }
      }
      return false;
    }
  }

  // ---- proof steps of parsing ----

  const KIND: Position := ["kind"]
  const NAME: Position := ["metadata", "name"]
  const GENERATE_NAME: Position := ["metadata", "generateName"]
  const SECRET_TYPE: Position := ["type"]

  const IRRELEVANT_SECRETS: seq<string> := ["kubernetes.io/dockercfg", "kubernetes.io/service-account-token"]

  function ReadString(m: Json, p: Position): (r: Result<string, Error>)
    ensures r.Success? <==> IsString(Get(m, p))
    ensures r.Success? ==> Get(m, p) == Some(Str(r.value))
  {
    var v := Get(m, p);
    if v.None? then Failure(MissingField(Enc(p)))
    else if v.value.Str? then Success(v.value.s)
    else Failure(WrongType(Enc(p)))
  }

  function ReadAnnotations(m: Json): (r: Result<map<string, Json>, Error>)
    ensures r.Success? <==> ObjectIfAny(Get(m, ANNOTATIONS))
    ensures r.Success? ==> r.value == AnnotationsOf(m)
  {
    var v := Get(m, ANNOTATIONS);
    if v.None? then Success(map[])
    else if v.value.Obj? then Success(v.value.fields)
    else Failure(WrongType(Enc(ANNOTATIONS)))
  }

  function NameIn(m: Json): Option<Json> {
    if Has(m, NAME) then Get(m, NAME) else Get(m, GENERATE_NAME)
  }

  predicate IdentityOf(m: Json, kind: string, name: string) {
    Get(m, KIND) == Some(Str(kind)) && NameIn(m) == Some(Str(name))
  }

  /** Secrets that the platform generates are of no interest. */
  predicate IsComparable(m: Json) {
    !(Get(m, KIND) == Some(Str("Secret")) && IsString(Get(m, SECRET_TYPE)) &&
      Get(m, SECRET_TYPE).value.s in IRRELEVANT_SECRETS)
  }

  predicate IsString(v: Option<Json>) {
    v.Some? && v.value.Str?
  }

  predicate ObjectIfAny(v: Option<Json>) {
    v.Some? ==> v.value.Obj?
  }

  predicate Identifiable(m: Json) {
    && IsString(Get(m, KIND)) && IsString(NameIn(m))
    && (Get(m, KIND) == Some(Str("Secret")) ==> IsString(Get(m, SECRET_TYPE)))
  }

  /** The documents that can be parsed. On a value of the wrong type the original panics. */
  predicate Parsable(m: Json, lastApplied: Json) {
    Identifiable(m) && ObjectIfAny(Get(m, ANNOTATIONS)) && ObjectIfAny(Get(lastApplied, ANNOTATIONS))
  }

  lemma {:induction false} ParsableMeans(m: Json, lastApplied: Json)
    ensures Parsable(m, lastApplied) <==>
            Identifiable(m) && ObjectIfAny(Get(m, ANNOTATIONS)) && ObjectIfAny(Get(lastApplied, ANNOTATIONS))
  {
  }

  lemma {:induction false} DeleteKeepsRoot(j: Json, p: Position)
    requires Delete(j, p).Some?
    ensures j.Obj? ==> Delete(j, p).value.Obj?
  {
  }

  lemma CleanedInTwoSteps(m: Json, simple: Json, config: Json)
    requires WithoutFields(m, simple, SIMPLE_FIELDS)
    requires forall q :: LabelAt(config, q) == if MatchesRegexField(Enc(q)) then None else LabelAt(simple, q)
    ensures Cleaned(m, config)
  {
    hide Enc, MatchesRegexField, SIMPLE_FIELDS;
  }

  /** Cleaning does not touch annotations. */
  lemma {:induction false} AnnotationsAreKept(m: Json, config: Json)
    requires Cleaned(m, config)
    ensures Get(config, ANNOTATIONS) == Get(m, ANNOTATIONS)
  {
    hide IsManaged, Get;
    forall s ensures LabelAt(config, ANNOTATIONS + s) == LabelAt(m, ANNOTATIONS + s) {
      NotManaged(ANNOTATIONS + s);
    }
    SameBelow(config, m, ANNOTATIONS);
  }

  /** The indices, ascending, of the matching paths among the first n. */
  ghost predicate MatchIndices(paths: seq<string>, n: nat, indices: seq<nat>)
    requires n <= |paths|
  {
    && (forall k :: 0 <= k < |indices| ==> indices[k] < n && MatchesRegexField(paths[indices[k]]))
    && (forall k, m :: 0 <= k < m < |indices| ==> indices[k] < indices[m])
    && (forall i :: 0 <= i < n && MatchesRegexField(paths[i]) ==> i in indices)
  }

  lemma FewerLists(paths: seq<string>, j: Json, config: Json)
    requires forall q :: LabelAt(config, q) == if MatchesRegexField(Enc(q)) then None else LabelAt(j, q)
    ensures Arranged(paths, j) ==> Arranged(paths, config)
  {
    hide Enc, MatchesRegexField, Arranged;
    if Arranged(paths, j) { StillArranged(paths, j, config); }
  }

  lemma NothingMatched(walk: seq<string>)
    ensures MatchIndices(walk, 0, [])
  {
  }

  lemma OneMoreMatched(walk: seq<string>, n: nat, indices: seq<nat>)
    requires n < |walk| && MatchIndices(walk, n, indices)
    ensures MatchIndices(walk, n + 1, if MatchesRegexField(walk[n]) then indices + [n] else indices)
  {
    hide MatchesRegexField;
    if MatchesRegexField(walk[n]) {
      var more := indices + [n];
      forall k | 0 <= k < |more| ensures more[k] < n + 1 && MatchesRegexField(walk[more[k]]) {
        assert k < |indices| ==> more[k] == indices[k];
      }
      forall k, m | 0 <= k < m < |more| ensures more[k] < more[m] {
        assert more[k] == indices[k] && (m < |indices| ==> more[m] == indices[m]);
      }
      forall i | 0 <= i < n + 1 && MatchesRegexField(walk[i]) ensures i in more {
        assert more[|indices|] == n && (i < n ==> i in indices);
      }
    }
  }

  /** The walk goes on with its n-th path, which is deleted if it matches. */
  lemma DeleteMatchAt(walk: seq<string>, j: Json, cur: Json, n: nat)
    requires IsWalk(walk, j) && n < |walk| && WithoutMatches(j, cur, walk[..n])
    ensures var edited := Delete(cur, Dec(walk[n]));
            WithoutMatches(j, if MatchesRegexField(walk[n]) && edited.Some? then edited.value else cur, walk[..n + 1])
  {
    hide Enc, Dec, MatchesRegexField, Get, Delete, IsWalk, WithoutMatches;
    WalkIsExact(walk, j);
    assert PointerInto(walk[n], j) && AncestorsIn(Dec(walk[n]), [], walk[..n]);
    DeleteMatch(j, cur, walk[..n], walk[n]);
    assert walk[..n + 1] == walk[..n] + [walk[n]];
  }

  lemma NextMatch(walk: seq<string>, indices: seq<nat>, k: nat, from: nat)
    requires MatchIndices(walk, |walk|, indices) && k < |indices|
    requires from == if k == 0 then 0 else indices[k - 1] + 1
    requires |NotMatching(walk[..from])| == from - k
    ensures var at := indices[k];
            var cur := NotMatching(walk[..from]) + walk[from..];
            && from <= at < |walk| && 0 <= at - k < |cur|
            && WithoutAt(cur, at - k) == NotMatching(walk[..at + 1]) + walk[at + 1..]
            && |NotMatching(walk[..at + 1])| == at - k
  {
    hide MatchesRegexField, NotMatching;
    var at := indices[k];
    BetweenMatches(walk, indices, k, from);
    DropOne(walk, from, at, k);
  }

  lemma BetweenMatches(walk: seq<string>, indices: seq<nat>, k: nat, from: nat)
    requires MatchIndices(walk, |walk|, indices) && k < |indices|
    requires from == if k == 0 then 0 else indices[k - 1] + 1
    ensures from <= indices[k] < |walk| && MatchesRegexField(walk[indices[k]])
    ensures forall i :: from <= i < indices[k] ==> !MatchesRegexField(walk[i])
  {
    hide MatchesRegexField;
    forall i | from <= i < indices[k] ensures i !in indices {
      forall m | 0 <= m < |indices| ensures indices[m] != i {
        assert m < k - 1 ==> indices[m] < indices[k - 1];
        assert m > k ==> indices[k] < indices[m];
      }
    }
  }

  /** Removing the one matching path after the part that is already filtered. */
  lemma DropOne(walk: seq<string>, from: nat, at: nat, k: nat)
    requires from <= at < |walk| && |NotMatching(walk[..from])| == from - k
    requires MatchesRegexField(walk[at]) && forall i :: from <= i < at ==> !MatchesRegexField(walk[i])
    ensures var cur := NotMatching(walk[..from]) + walk[from..];
            && 0 <= at - k < |cur|
            && WithoutAt(cur, at - k) == NotMatching(walk[..at + 1]) + walk[at + 1..]
            && |NotMatching(walk[..at + 1])| == at - k
  {
    hide MatchesRegexField, NotMatching;
    assert walk[..at] == walk[..from] + walk[from..at];
    NotMatchingRun(walk[..from], walk[from..at]);
    NotMatchingLast(walk, at);
    CutOut(NotMatching(walk[..from]), walk, from, at);
  }

  lemma NotMatchingLast(walk: seq<string>, at: nat)
    requires at < |walk| && MatchesRegexField(walk[at])
    ensures NotMatching(walk[..at + 1]) == NotMatching(walk[..at])
  {
    hide MatchesRegexField;
    assert walk[..at + 1][..at] == walk[..at];
  }

  lemma CutOut(kept: seq<string>, walk: seq<string>, from: nat, at: nat)
    requires from <= at < |walk|
    ensures var cur, i := kept + walk[from..], |kept| + (at - from);
            i < |cur| && WithoutAt(cur, i) == kept + walk[from..at] + walk[at + 1..]
  {
    var cur, i := kept + walk[from..], |kept| + (at - from);
    assert cur[..i] == kept + walk[from..at];
    assert cur[i + 1..] == walk[at + 1..];
  }

  lemma NoneMatchIn(walk: seq<string>)
    ensures NotMatching(walk[..0]) == []
  {
  }

  lemma NothingGone(j: Json)
    ensures WithoutMatches(j, j, [])
  {
  }

  lemma {:induction false} NoMoreMatches(walk: seq<string>, indices: seq<nat>, from: nat)
    requires MatchIndices(walk, |walk|, indices)
    requires from == if indices == [] then 0 else indices[|indices| - 1] + 1
    ensures from <= |walk| && NotMatching(walk[..from]) + walk[from..] == NotMatching(walk)
  {
    hide MatchesRegexField;
    forall i | i in indices ensures i < from {
      var m :| 0 <= m < |indices| && indices[m] == i;
      assert m < |indices| - 1 ==> indices[m] < indices[|indices| - 1];
    }
    assert forall i :: from <= i < |walk| ==> !MatchesRegexField(walk[i]);
    assert walk == walk[..from] + walk[from..];
    NotMatchingRun(walk[..from], walk[from..]);
  }

  // ---- proof steps of the preparation ----

  /** Everything appended for a preserved path begins with it; the empty path brings the whole walk of the
      platform's document along. */
  lemma PathsAppended(before: seq<string>, after: seq<string>, p: Json, path: string, rs: seq<string>)
    requires path in rs && Get(p, Dec(path)).Some?
    requires var v := Get(p, Dec(path)).value; Walked(before + [path], after, v, path, Tokens(v))
    ensures before <= after && forall k :: |before| <= k < |after| ==> AnyPrefix(rs, after[k])
    ensures AllOf(before, p) || path == "" ==> AllOf(after, p)
  {
    hide Enc, Dec, Get, OrderedWalk, AllOf, AnyPrefix;
    ExtendedChild(before, after, path, path);
    forall k | |before| <= k < |after| ensures AnyPrefix(rs, after[k]) { PrefixAmong(rs, path, after[k]); }
    if AllOf(before, p) { AllOfMore(before, after, 0, p); }
    if path == "" {
      RootIsThere(p);
      EmptyPointer();
      WalkAppended(before + [path], after, p);
    }
  }

  lemma PrefixAmong(rs: seq<string>, r: string, s: string)
    requires r in rs && r <= s
    ensures AnyPrefix(rs, s)
  {
    var i :| 0 <= i < |rs| && rs[i] == r;
    assert rs[i] <= s;
  }

  lemma WalkAppended(before: seq<string>, after: seq<string>, p: Json)
    requires Walked(before, after, p, "", Tokens(p))
    ensures AllOf(after, p)
  {
    hide Enc, Dec, Get, DepthFirst, IsWalk, AllOf, Distinct, ParentsFirst, AllInto;
    WalkedFromRoot(before, after, p);
    WalkIsExact(after[|before|..], p);
    AllOfMore(after[|before|..], after, |before|, p);
  }

  lemma SetRoot(t: Json, v: Json)
    ensures Set(t, [], v) == Some(t)
  {
  }

  lemma AllOfMore(part: seq<string>, all: seq<string>, from: nat, p: Json)
    requires AllOf(part, p) && from + |part| <= |all| && part == all[from..from + |part|]
    ensures AllOf(all, p)
  {
    hide Enc, Get;
    forall s | s in part ensures s in all {
      var i :| 0 <= i < |part| && part[i] == s;
      assert all[from + i] == s;
    }
  }

  lemma UsableAt(rs: seq<string>, i: nat)
    requires Usable(rs) && i < |rs|
    ensures NoPointer(rs[i]) || ProperPointer(rs[i])
  {
  }

  lemma WalkableBegins(walk: seq<string>, t: Json, p: Json)
    requires Walkable(walk, t)
    ensures Preparation(walk, walk, t, p, [])
  {
    hide IsWalk;
    PreparationBegins(walk, t, p);
  }

  lemma PreparationAfterDelete(paths: seq<string>, walk: seq<string>, t: Json, p: Json, rs: seq<string>, r: string)
    requires Preparation(paths, walk, t, p, rs) && (NoPointer(r) || ProperPointer(r)) && !Has(p, Dec(r))
    ensures Preparation(paths, walk, Preserve(t, p, Dec(r)), p, rs + [r])
  {
    hide Lists, PointersIn;
    ListsAfterDelete(PointersIn(paths), t, p, PointersIn(rs), r);
    assert PointersIn(paths) + [] == PointersIn(paths) && paths + [] == paths;
    PreparationGoesOn(paths, [], walk, t, Preserve(t, p, Dec(r)), p, rs, r);
  }

  /** The value of a preserved position that cannot be set in the template. */
  lemma PreparationUnset(paths: seq<string>, walk: seq<string>, t: Json, p: Json, rs: seq<string>, r: string)
    requires Preparation(paths, walk, t, p, rs) && (NoPointer(r) || ProperPointer(r))
    requires Has(p, Dec(r)) && Set(t, Dec(r), Get(p, Dec(r)).value).None?
    ensures Preparation(paths, walk, Preserve(t, p, Dec(r)), p, rs + [r])
  {
    hide Lists, PointersIn;
    ListsMore(PointersIn(paths), t, p, PointersIn(rs), r);
    assert PointersIn(paths) + [] == PointersIn(paths) && paths + [] == paths;
    PreparationGoesOn(paths, [], walk, t, t, p, rs, r);
  }

  lemma PreparationAfterSet(before: seq<string>, after: seq<string>, walk: seq<string>, t: Json, p: Json,
                            rs: seq<string>, r: string)
    requires Preparation(before, walk, t, p, rs) && (NoPointer(r) || ProperPointer(r))
    requires Has(p, Dec(r)) && Set(t, Dec(r), Get(p, Dec(r)).value).Some?
    requires Walked(before + [r], after, Get(p, Dec(r)).value, r, Tokens(Get(p, Dec(r)).value))
    ensures Preparation(after, walk, Preserve(t, p, Dec(r)), p, rs + [r])
  {
    hide Lists, PointersIn, Enc, Dec, Get, Set, OrderedWalk;
    var more := after[|before|..];
    ExtendedChild(before, after, r, r);
    assert after == before + more;
    if NoPointer(r) {
      PreserveRoot(t, p, r);
      forall k | 0 <= k < |more| ensures NoPointer(more[k]) { assert r <= after[|before| + k]; }
      PreparationIgnores(before, more, walk, t, p, rs, r);
    } else {
      var listed := PointersIn(before) + more;
      WalkedElsewhere(before, after, PointersIn(before), Get(p, Dec(r)).value, r);
      ListsAfterSet(PointersIn(before), listed, t, p, PointersIn(rs), r);
      ListedBelow(before, after, Get(p, Dec(r)).value, r);
      PreparationGoesOn(before, more, walk, t, Preserve(t, p, Dec(r)), p, rs, r);
    }
  }

  /** What was appended to one list may be appended to another one. */
  lemma WalkedElsewhere(before: seq<string>, after: seq<string>, other: seq<string>, v: Json, r: string)
    requires Walked(before + [r], after, v, r, Tokens(v))
    ensures Walked(other + [r], other + after[|before|..], v, r, Tokens(v))
  {
    hide OrderedWalk, Enc, Dec;
    ExtendedChild(before, after, r, r);
    var all := other + after[|before|..];
    assert all[|other + [r]|..] == after[|before + [r]|..];
    assert other + [r] <= all;
    forall i | |other + [r]| <= i < |all| ensures r <= all[i] {
      assert all[i] == after[|before| + (i - |other|)];
    }
  }

  lemma ListedBelow(before: seq<string>, after: seq<string>, v: Json, r: string)
    requires ProperPointer(r) && Walked(before + [r], after, v, r, Tokens(v))
    ensures |before| <= |after| && Slashed(after[|before|..])
    ensures forall k :: 0 <= k < |after[|before|..]| ==> Dec(r) <= Dec(after[|before|..][k])
  {
    hide Enc, Dec, WalkOfTokens;
    ExtendedChild(before, after, r, r);
    ProperIsPointer(r);
    var more := after[|before|..];
    forall k | 0 <= k < |more| ensures !NoPointer(more[k]) && Dec(r) <= Dec(more[k]) {
      assert r <= after[|before| + k];
      EncStart(Dec(r));
      if k > 0 {
        StartsWithToken(after[|before + [r]|..], v, Dec(r), Tokens(v), k - 1);
        assert more[k] == after[|before + [r]|..][k - 1];
      }
    }
  }

  /** Where all arguments name a position, every path in the list is a pointer. */
  lemma ListedProperly(paths: seq<string>, walk: seq<string>, t0: Json, t: Json, p: Json, rs: seq<string>)
    requires walk <= paths && forall k :: |walk| <= k < |paths| ==> AnyPrefix(rs, paths[k])
    ensures AllProper(rs) ==> Usable(rs)
    ensures Walkable(walk, t0) && AllProper(rs) && PreparedList(PointersIn(paths), t0, t, p, PointersIn(rs)) ==>
              PreparedList(paths, t0, t, p, rs)
  {
    hide Enc, Dec, IsWalk, PreparedList, PointersIn, NoPointer, ProperPointer;
    if Walkable(walk, t0) && AllProper(rs) {
      WalkIsSlashed(walk, t0);
      forall i | 0 <= i < |rs| ensures !NoPointer(rs[i]) { ProperIsPointer(rs[i]); }
      forall k | 0 <= k < |paths| ensures !NoPointer(paths[k]) {
        if k >= |walk| { PointerBegins(rs, paths[k]); }
      }
      AllArePointers(rs);
      AllArePointers(paths);
    }
  }

  lemma PointerBegins(rs: seq<string>, s: string)
    requires AnyPrefix(rs, s) && AllProper(rs)
    ensures !NoPointer(s)
  {
    hide Enc, Dec;
    var i :| 0 <= i < |rs| && rs[i] <= s;
    EncStart(Dec(rs[i]));
    assert ProperPointer(rs[i]) && rs[i][0] == s[0];
  }

  lemma NothingPreserved(t: Json, p: Json)
    ensures PreserveAll(t, p, []) == t
  {
  }

  lemma ListsAfterDelete(paths: seq<string>, t: Json, p: Json, rs: seq<string>, r: string)
    requires Lists(paths, t, p, rs) && ProperPointer(r) && !Has(p, Dec(r))
    ensures Lists(paths, Preserve(t, p, Dec(r)), p, rs + [r])
  {
    DeleteEffect(t, Dec(r));
    if Delete(t, Dec(r)).Some? {
      var t' := Delete(t, Dec(r)).value;
      assert LabelAt(t', Dec(r)) == None;
      ListsPreserved(paths, [], t, t', p, rs, r);
      assert paths + [] == paths;
    } else {
      ListsMore(paths, t, p, rs, r);
    }
  }

  lemma {:induction false} ListsAfterSet(paths: seq<string>, after: seq<string>, t: Json, p: Json, rs: seq<string>,
                                         r: string)
    requires Lists(paths, t, p, rs) && ProperPointer(r) && Has(p, Dec(r)) && Set(t, Dec(r), Get(p, Dec(r)).value).Some?
    requires Walked(paths + [r], after, Get(p, Dec(r)).value, r, Tokens(Get(p, Dec(r)).value))
    ensures Lists(after, Preserve(t, p, Dec(r)), p, rs + [r])
  {
    var v := Get(p, Dec(r)).value;
    SetEffect(t, Dec(r), v);
    GetAfterSet(t, Dec(r), v);
    var more := after[|paths|..];
    assert after == paths + more && more[0] == r && more[1..] == after[|paths| + 1..];
    ListsPreserved(paths, more, t, Set(t, Dec(r), v).value, p, rs, r);
  }

  lemma StillInStep(paths: seq<string>, j: Json, lastApplied: Json, annotations: map<string, Json>)
    requires Walkable(paths, j) && annotations == AnnotationsOf(j) && PlainAnnotations(j)
    requires PlainApiVersion(lastApplied)
    ensures Walkable(paths, FixApiVersion(j, lastApplied))
    ensures annotations == AnnotationsOf(FixApiVersion(j, lastApplied))
    ensures PlainAnnotations(FixApiVersion(j, lastApplied))
  {
    hide IsWalk, Arranged, AnnotationsOf;
    FixApiVersionEffect(j, lastApplied);
    WalkOfSamePositions(paths, j, FixApiVersion(j, lastApplied));
    SameAnnotations(j, lastApplied);
    SameLists(j, lastApplied);
    StillArranged(paths, j, FixApiVersion(j, lastApplied));
    SameAnnotationsObject(j, FixApiVersion(j, lastApplied));
  }

  lemma SameAnnotationsObject(a: Json, b: Json)
    requires Get(b, ANNOTATIONS) == Get(a, ANNOTATIONS)
    ensures AnnotationsOf(b) == AnnotationsOf(a) && (PlainAnnotations(a) ==> PlainAnnotations(b))
  {
  }

  /** The fixed apiVersion is no list. */
  lemma SameLists(j: Json, lastApplied: Json)
    requires PlainApiVersion(lastApplied)
    ensures forall q :: HoldsList(FixApiVersion(j, lastApplied), q) ==> HoldsList(j, q)
  {
    var fixed := FixApiVersion(j, lastApplied);
    FixApiVersionEffect(j, lastApplied);
    forall q | HoldsList(fixed, q) ensures HoldsList(j, q) {
      if q == API_VERSION && fixed != j { GetAfterSet(j, API_VERSION, Get(lastApplied, API_VERSION).value); }
    }
  }

  function Elements(s: seq<string>): (es: set<string>)
    ensures forall a :: a in es <==> a in s
  {
    set a | a in s
  }

  lemma NotAmong(s: seq<string>, i: nat)
    requires Distinct(s) && i < |s|
    ensures s[i] !in s[..i]
  {
  }

  lemma {:induction false} RemovalStep(paths: seq<string>, j: Json, cur: Json, done: set<string>, a: string)
    requires IsWalk(paths, cur) && PlainAnnotations(j) && a in AnnotationsOf(j) && a !in done && Lacks(cur, j, done)
    ensures var edited := Delete(cur, AnnotationAt(a));
            && edited.Some?
            && Lacks(edited.value, j, done + {a})
            && IsWalk(WithoutFirst(paths, Enc(AnnotationAt(a))), edited.value)
  {
    DeleteAnnotation(j, cur, done, a);
    DeleteEffect(cur, AnnotationAt(a));
    RemoveFromWalk(paths, cur, Delete(cur, AnnotationAt(a)).value, AnnotationAt(a));
  }

  lemma ArrangedWithoutFirst(paths: seq<string>, j: Json, val: string)
    requires Arranged(paths, j)
    ensures Arranged(WithoutFirst(paths, val), j)
  {
    hide Arranged;
    if val in paths {
      var i := FirstPlace(paths, val);
      FirstGone(paths, val, i);
      ArrangedWithout(paths, j, i);
    } else {
      NoneGone(paths, val);
    }
  }

  lemma LacksLists(paths: seq<string>, j: Json, cur: Json, done: set<string>)
    requires Arranged(paths, j) && Lacks(cur, j, done)
    ensures Arranged(paths, cur)
  {
    hide Arranged;
    StillArranged(paths, j, cur);
  }

  lemma FirstPlace(s: seq<string>, val: string) returns (i: nat)
    requires val in s
    ensures i < |s| && s[i] == val && val !in s[..i]
  {
    i := 0;
    while s[i] != val
      invariant i < |s| && val !in s[..i]
      decreases |s| - i
    {
      i := i + 1;
    }
  }

  lemma RemovalDone(j: Json, cur: Json, done: set<string>)
    requires PlainAnnotations(j) && Lacks(cur, j, done)
    ensures cur == WithoutAnnotations(j, done)
  {
    WithoutAnnotationsEffect(j, done);
    SameLabels(cur, WithoutAnnotations(j, done));
  }

  lemma IndexTokensAscend(a: Json, i: nat)
    ensures TokensAscend(a, IndexTokens(i), {Itoa(i)})
  {
    ParseItoa(i);
  }

  lemma NextIndexToken(i: nat)
    ensures IndexTokens(i + 1) == IndexTokens(i) + {Itoa(i)}
    ensures Itoa(i) !in IndexTokens(i)
  {
    ParseItoa(i);
    forall k ensures k in IndexTokens(i + 1) <==> k in IndexTokens(i) + {Itoa(i)} {
      if ParseIndex(k) == Some(i) { ItoaParse(k); }
    }
  }
}
