/** Preserve arguments: what the options ask for (pkg/cli/options.go) and which of them concern one
    resource (pkg/openshift/changeset.go). */
module Preserving {
  import opened Wrappers
  import opened Text
  import opened Preparing
  import opened Comparison
  import opened Items
  import opened Changes

  /** KindMapping: short and long names of kinds in arguments. Other names map to the empty kind. */
  function KindNamed(s: string): string {
    if s == "svc" || s == "service" then "Service"
    else if s == "route" then "Route"
    else if s == "dc" || s == "deploymentconfig" then "DeploymentConfig"
    else if s == "deployment" then "Deployment"
    else if s == "bc" || s == "buildconfig" then "BuildConfig"
    else if s == "is" || s == "imagestream" then "ImageStream"
    else if s == "pvc" || s == "persistentvolumeclaim" then "PersistentVolumeClaim"
    else if s == "template" then "Template"
    else if s == "cm" || s == "configmap" then "ConfigMap"
    else if s == "secret" then "Secret"
    else if s == "rolebinding" then "RoleBinding"
    else if s == "serviceaccount" then "ServiceAccount"
    else if s == "cronjob" || s == "cj" then "CronJob"
    else if s == "job" then "Job"
    else if s == "limitrange" then "LimitRange"
    else if s == "resourcequota" || s == "quota" then "ResourceQuota"
    else if s == "hpa" then "HorizontalPodAutoscaler"
    else if s == "statefulset" then "StatefulSet"
    else ""
  }

  const IMMUTABLE_ARGUMENTS: seq<string> := [
    "pvc:/spec/accessModes",
    "pvc:/spec/storageClassName",
    "pvc:/spec/resources/requests/storage",
    "route:/spec/host",
    "secret:/type"
  ]

  /** CompareOptions.PathsToPreserve. */
  function PathsToPreserve(preserveImmutableFields: bool, preservePaths: seq<string>): seq<string> {
    (if preserveImmutableFields then IMMUTABLE_ARGUMENTS else []) + preservePaths
  }

  /** An argument has the form path, kind:path, or kind:name:path. */
  predicate ValidArgument(argument: string) {
    |Split(argument, ':')| <= 3
  }

  predicate Concerns(argument: string, kind: string, name: string) {
    var parts := Split(argument, ':');
    || |parts| == 1
    || (|parts| == 2 && kind == KindNamed(ToLower(parts[0])))
    || (|parts| == 3 && kind == KindNamed(ToLower(parts[0])) && name == ToLower(parts[1]))
  }

  function PathOf(argument: string): string {
    var parts := Split(argument, ':');
    parts[|parts| - 1]
  }

  /** The paths to preserve in the resource with the given kind and name. */
  function PathsFor(kind: string, name: string, arguments: seq<string>): seq<string> {
    if arguments == [] then []
    else
      var init, last := PathsFor(kind, name, arguments[..|arguments| - 1]), arguments[|arguments| - 1];
      if Concerns(last, kind, name) then init + [PathOf(last)] else init
  }

  /** The argument asks for the path to be preserved in resources of this kind and name. It is written as path, as
      kind:path or as kind:name:path. */
  ghost predicate AsksFor(argument: string, kind: string, name: string, path: string) {
    && ':' !in path
    && (|| argument == path
        || (exists a :: ':' !in a && argument == a + ":" + path && kind == KindNamed(ToLower(a)))
        || (exists a, n :: ':' !in a && ':' !in n && argument == a + ":" + n + ":" + path &&
                           kind == KindNamed(ToLower(a)) && name == ToLower(n)))
  }

  lemma WholeArgument(argument: string, kind: string, name: string)
    requires ':' !in argument
    ensures ValidArgument(argument) && Concerns(argument, kind, name) && PathOf(argument) == argument
  {
    SplitWhole(argument, ':');
  }

  lemma KindArgument(kindName: string, path: string, kind: string, name: string)
    requires ':' !in kindName && ':' !in path
    ensures ValidArgument(kindName + ":" + path) && PathOf(kindName + ":" + path) == path
    ensures Concerns(kindName + ":" + path, kind, name) <==> kind == KindNamed(ToLower(kindName))
  {
    hide KindNamed, ToLower;
    SplitHead(kindName, ':', path);
    SplitWhole(path, ':');
    assert kindName + ":" + path == kindName + [':'] + path;
  }

  lemma NamedArgument(kindName: string, resource: string, path: string, kind: string, name: string)
    requires ':' !in kindName && ':' !in resource && ':' !in path
    ensures var argument := kindName + ":" + resource + ":" + path;
            && ValidArgument(argument) && PathOf(argument) == path
            && (Concerns(argument, kind, name) <==> kind == KindNamed(ToLower(kindName)) && name == ToLower(resource))
  {
    hide KindNamed, ToLower;
    SplitHead(kindName, ':', resource + ":" + path);
    SplitHead(resource, ':', path);
    SplitWhole(path, ':');
    assert kindName + ":" + resource + ":" + path == kindName + [':'] + (resource + ":" + path);
    assert resource + ":" + path == resource + [':'] + path;
  }

  /** The parts of an argument are those of its written form. */
  lemma ConcernsMeans(argument: string, kind: string, name: string, path: string)
    ensures ValidArgument(argument) <==> multiset(argument)[':'] <= 2
    ensures ValidArgument(argument) && Concerns(argument, kind, name) && PathOf(argument) == path <==>
            AsksFor(argument, kind, name, path)
  {
    hide KindNamed, ToLower, Split;
    SplitParts(argument, ':');
    if AsksFor(argument, kind, name, path) {
      if argument == path {
        WholeArgument(path, kind, name);
      } else if a :| ':' !in a && argument == a + ":" + path && kind == KindNamed(ToLower(a)) {
        KindArgument(a, path, kind, name);
      } else {
        var a, n :| ':' !in a && ':' !in n && argument == a + ":" + n + ":" + path &&
                    kind == KindNamed(ToLower(a)) && name == ToLower(n);
        NamedArgument(a, n, path, kind, name);
      }
    }
    if ValidArgument(argument) && Concerns(argument, kind, name) && PathOf(argument) == path {
      ConcerningIsWritten(argument, kind, name, path);
    }
  }

  lemma ConcerningIsWritten(argument: string, kind: string, name: string, path: string)
    requires ValidArgument(argument) && Concerns(argument, kind, name) && PathOf(argument) == path
    ensures AsksFor(argument, kind, name, path)
  {
    hide KindNamed, ToLower, Split;
    SplitParts(argument, ':');
    var parts := Split(argument, ':');
    var rest := SplitTail(argument, ':');
    if |parts| == 2 {
      var _ := SplitTail(rest, ':');
      assert argument == parts[0] + ":" + path;
    } else if |parts| == 3 {
      var last := SplitTail(rest, ':');
      var _ := SplitTail(last, ':');
      assert rest == parts[1] + ":" + path;
      assert argument == parts[0] + ":" + parts[1] + ":" + path;
    }
  }

  method SelectPaths(kind: string, name: string, arguments: seq<string>) returns (r: Result<seq<string>, Error>)
    ensures r.Success? <==> forall i :: 0 <= i < |arguments| ==> multiset(arguments[i])[':'] <= 2
    ensures r.Success? ==> r.value == PathsFor(kind, name, arguments)
    ensures r.Success? ==>
              forall path :: path in r.value <==>
                             exists i :: 0 <= i < |arguments| && AsksFor(arguments[i], kind, name, path)
    ensures r.Failure? ==> r.error.InvalidPreserve? && r.error.argument in arguments && !ValidArgument(r.error.argument)
  {
    hide Split, KindNamed, ToLower, AsksFor;
    forall argument ensures ValidArgument(argument) <==> multiset(argument)[':'] <= 2 {
      ConcernsMeans(argument, kind, name, "");
    }
    var actualPaths := [];
    for i := 0 to |arguments|
      invariant forall j :: 0 <= j < i ==> ValidArgument(arguments[j])
      invariant actualPaths == PathsFor(kind, name, arguments[..i])
    {
      var path := arguments[i];
      assert arguments[..i + 1] == arguments[..i] + [path];
      var pathParts := Split(path, ':');
      if |pathParts| > 3 {
        return Failure(InvalidPreserve(path));
      }
      if |pathParts| == 1
         || (|pathParts| == 2 && kind == KindNamed(ToLower(pathParts[0])))
         || (|pathParts| == 3 && kind == KindNamed(ToLower(pathParts[0])) && name == ToLower(pathParts[1])) {
        actualPaths := actualPaths + [pathParts[|pathParts| - 1]];
      }
    }
    assert arguments[..|arguments|] == arguments;
    forall path
      ensures path in actualPaths <==> exists i :: 0 <= i < |arguments| && AsksFor(arguments[i], kind, name, path)
    {
      PathsForMeaning(kind, name, arguments, path);
    }
    return Success(actualPaths);
  }

  lemma {:induction false} PathsForConcat(kind: string, name: string, a: seq<string>, b: seq<string>)
    ensures PathsFor(kind, name, a + b) == PathsFor(kind, name, a) + PathsFor(kind, name, b)
  {
    hide Concerns, PathOf;
    if b == [] {
      assert a + b == a;
    } else {
      assert (a + b)[..|a + b| - 1] == a + b[..|b| - 1];
      PathsForConcat(kind, name, a, b[..|b| - 1]);
    }
  }

  lemma {:induction false} SelectedArguments(kind: string, name: string, arguments: seq<string>, path: string)
    ensures path in PathsFor(kind, name, arguments) <==>
            exists i :: 0 <= i < |arguments| && Concerns(arguments[i], kind, name) && PathOf(arguments[i]) == path
  {
    hide Concerns, PathOf;
    if arguments != [] {
      var init, last := arguments[..|arguments| - 1], arguments[|arguments| - 1];
      SelectedArguments(kind, name, init, path);
      if exists i :: 0 <= i < |init| && Concerns(init[i], kind, name) && PathOf(init[i]) == path {
        var i :| 0 <= i < |init| && Concerns(init[i], kind, name) && PathOf(init[i]) == path;
        assert arguments[i] == init[i];
      }
    }
  }

  /** Exactly the arguments that ask for a path contribute it. */
  lemma PathsForMeaning(kind: string, name: string, arguments: seq<string>, path: string)
    ensures path in PathsFor(kind, name, arguments) <==>
            exists i :: 0 <= i < |arguments| && AsksFor(arguments[i], kind, name, path)
  {
    hide PathOf, AsksFor, Split, KindNamed, ToLower;
    SelectedArguments(kind, name, arguments, path);
    forall i | 0 <= i < |arguments|
      ensures AsksFor(arguments[i], kind, name, path) <==>
              Concerns(arguments[i], kind, name) && PathOf(arguments[i]) == path
    {
      ConcernsMeans(arguments[i], kind, name, path);
    }
  }

  /** With preserve-immutable-fields, the selection for any resource is what is preserved anyway and exactly the
      immutable fields of its kind: by the contract of CalculateChanges no comparison then recreates, or refuses to. */
  lemma ImmutableArgumentsCover(kind: string, name: string, preservePaths: seq<string>)
    ensures PathsFor(kind, name, PathsToPreserve(true, preservePaths)) ==
            ImmutableFields(kind) + PathsFor(kind, name, preservePaths)
    ensures ImmutablesPreserved(kind, PathsFor(kind, name, PathsToPreserve(true, preservePaths)))
    ensures PathsToPreserve(false, preservePaths) == preservePaths
  {
    hide PathsFor, ImmutableFields;
    PathsForConcat(kind, name, IMMUTABLE_ARGUMENTS, preservePaths);
    ImmutableArgumentsSelect(kind, name);
  }

  lemma ImmutableArgumentsSelect(kind: string, name: string)
    ensures PathsFor(kind, name, IMMUTABLE_ARGUMENTS) == ImmutableFields(kind)
  {
    hide PathsFor, Split, KindNamed, ToLower;
    var args := IMMUTABLE_ARGUMENTS;
    ShortNames();
    ArgumentPieces();
    SelectedByKind("pvc", "/spec/accessModes", kind, name);
    SelectedByKind("pvc", "/spec/storageClassName", kind, name);
    SelectedByKind("pvc", "/spec/resources/requests/storage", kind, name);
    SelectedByKind("route", "/spec/host", kind, name);
    SelectedByKind("secret", "/type", kind, name);
    PathsForConcat(kind, name, args[..4], [args[4]]);
    PathsForConcat(kind, name, args[..3], [args[3]]);
    PathsForConcat(kind, name, args[..2], [args[2]]);
    PathsForConcat(kind, name, [args[0]], [args[1]]);
    assert args == args[..4] + [args[4]] && args[..4] == args[..3] + [args[3]];
    assert args[..3] == args[..2] + [args[2]] && args[..2] == [args[0]] + [args[1]];
  }

  lemma SelectedByKind(kindName: string, path: string, kind: string, name: string)
    requires ':' !in kindName && ':' !in path
    ensures PathsFor(kind, name, [kindName + ":" + path]) == if kind == KindNamed(ToLower(kindName)) then [path] else []
  {
    hide PathsFor, Concerns, PathOf, KindNamed, ToLower;
    SingleArgument(kindName + ":" + path, kind, name);
    KindArgument(kindName, path, kind, name);
  }

  lemma ShortNames()
    ensures KindNamed(ToLower("pvc")) == "PersistentVolumeClaim" && ':' !in "pvc"
    ensures KindNamed(ToLower("route")) == "Route" && ':' !in "route"
    ensures KindNamed(ToLower("secret")) == "Secret" && ':' !in "secret"
  {
    hide ToLower;
    LowerStays("pvc");
    LowerStays("route");
    LowerStays("secret");
  }

  lemma {:induction false} LowerStays(s: string)
    requires forall i :: 0 <= i < |s| ==> !('A' <= s[i] <= 'Z')
    ensures ToLower(s) == s
  {
    if s != "" {
      LowerStays(s[1..]);
      assert s == [s[0]] + s[1..];
    }
  }

  lemma ArgumentPieces()
    ensures IMMUTABLE_ARGUMENTS[0] == "pvc" + ":" + "/spec/accessModes"
    ensures IMMUTABLE_ARGUMENTS[1] == "pvc" + ":" + "/spec/storageClassName"
    ensures IMMUTABLE_ARGUMENTS[2] == "pvc" + ":" + "/spec/resources/requests/storage"
    ensures IMMUTABLE_ARGUMENTS[3] == "route" + ":" + "/spec/host"
    ensures IMMUTABLE_ARGUMENTS[4] == "secret" + ":" + "/type"
  {
    VolumeClaimPieces();
    StoragePieces();
    OtherPieces();
  }

  lemma VolumeClaimPieces()
    ensures "pvc:/spec/accessModes" == "pvc" + ":" + "/spec/accessModes"
    ensures "pvc:/spec/storageClassName" == "pvc" + ":" + "/spec/storageClassName"
  {
  }

  lemma StoragePieces()
    ensures "pvc:/spec/resources/requests/storage" == "pvc" + ":" + "/spec/resources/requests/storage"
  {
  }

  lemma OtherPieces()
    ensures "route:/spec/host" == "route" + ":" + "/spec/host"
    ensures "secret:/type" == "secret" + ":" + "/type"
  {
  }

  // ---- arguments that name no path ----

  lemma {:induction false} SingleArgument(argument: string, kind: string, name: string)
    ensures PathsFor(kind, name, [argument]) == if Concerns(argument, kind, name) then [PathOf(argument)] else []
  {
    hide Concerns, PathOf;
    assert [argument][..0] == [];
    assert PathsFor(kind, name, []) == [];
  }

  /** The two short forms that the documentation offers select something that is no pointer: bc for every resource,
      bc:foobar for every build configuration. By the contract of CalculateChanges neither has an effect. */
  lemma DocumentedArguments(kind: string, name: string)
    ensures PathsFor(kind, name, ["bc"]) == ["bc"] && NoPointers(["bc"])
    ensures PathsFor(kind, name, ["bc:foobar"]) == (if kind == "BuildConfig" then ["foobar"] else [])
    ensures NoPointers(["foobar"])
  {
    hide Concerns, PathOf, Split, KindNamed, ToLower, PathsFor;
    SingleArgument("bc", kind, name);
    WholeArgument("bc", kind, name);
    BuildConfigName();
    assert "bc:foobar" == "bc" + ":" + "foobar";
    SelectedByKind("bc", "foobar", kind, name);
  }

  lemma BuildConfigName()
    ensures KindNamed(ToLower("bc")) == "BuildConfig"
  {
    hide ToLower;
    LowerStays("bc");
  }

  /** An argument that ends in a colon selects the empty path: by the contract of CalculateChanges the comparison
      of the resources it concerns is switched off. */
  lemma ArgumentWithoutPath(kind: string, name: string)
    ensures PathsFor(kind, name, ["secret:"]) == if kind == "Secret" then [""] else []
  {
    hide Concerns, PathOf, Split, KindNamed, ToLower, PathsFor;
    SingleArgument("secret:", kind, name);
    ShortNames();
    assert "secret:" == "secret" + ":" + "";
    KindArgument("secret", "", kind, name);
  }
}
