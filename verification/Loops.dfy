/** The two path loops of calculateChanges (pkg/openshift/changeset.go) as functions of the documents and the
    path lists they start from, whatever these are. */
module Loops {
  import opened Wrappers
  import opened Text
  import opened Documents
  import opened Pointers
  import opened Merging
  import opened Preparing
  import opened Comparison

  /** Where the template's path loop stands: it goes on, or it stopped at an immutable field, with the
      document as edited so far, or at a pointer that could not be deleted. */
  datatype Progress =
    | Going(config: Json, compared: set<string>, added: seq<string>)
    | Mismatched(path: string, config: Json)
    | Stuck(path: string)

  /** A missing value counts as null. */
  function ValueOrNull(v: Option<Json>): Json {
    if v.Some? then v.value else Null
  }

  function TemplateStep(kind: string, p: Json, rs: seq<string>, s: Progress, path: string): Progress
    requires s.Going?
  {
    var tv, pv := Get(s.config, Dec(path)), Get(p, Dec(path));
    if AnyPrefix(s.added, path) then s
    else if AnyPrefix(rs, path) then s.(compared := s.compared + {path})
    else if pv.None? then
      if path in ImmutableFields(kind) then Mismatched(path, s.config)
      else if tv == Some(Str("")) then
        var edited := Delete(s.config, Dec(path));
        if edited.Some? then Going(edited.value, s.compared + {path}, s.added) else Stuck(path)
      else Going(s.config, s.compared + {path}, s.added + [path])
    else if IsCollection(ValueOrNull(tv)) || ValueOrNull(tv) == pv.value || path !in ImmutableFields(kind) then
      s.(compared := s.compared + {path})
    else Mismatched(path, s.config)
  }

  /** The template's path loop. */
  function TemplateLoop(kind: string, t: Json, p: Json, rs: seq<string>, paths: seq<string>): Progress {
    if paths == [] then Going(t, {}, [])
    else
      var s := TemplateLoop(kind, t, p, rs, paths[..|paths| - 1]);
      if s.Going? then TemplateStep(kind, p, rs, s, paths[|paths| - 1]) else s
  }

  /** Where the platform's path loop stands. */
  datatype Completion =
    | Completing(config: Json, compared: set<string>, deleted: seq<string>)
    | Broken(path: string)

  function PlatformStep(p: Json, s: Completion, path: string): Completion
    requires s.Completing?
  {
    var pv := Get(p, Dec(path));
    if path in s.compared || AnyPrefix(s.deleted, path) then s
    else if pv.None? then Broken(path)
    else if pv.value == Null || (path == Enc(ANNOTATIONS) && pv.value != Obj(map[])) then s
    else if EmptyCollection(pv.value) then
      var edited := Set(s.config, Dec(path), pv.value);
      if edited.Some? then s.(config := edited.value) else Broken(path)
    else Completing(s.config, s.compared + {path}, s.deleted + [path])
  }

  /** The platform's path loop. */
  function PlatformLoop(cfg: Json, compared: set<string>, p: Json, paths: seq<string>): Completion {
    if paths == [] then Completing(cfg, compared, [])
    else
      var s := PlatformLoop(cfg, compared, p, paths[..|paths| - 1]);
      if s.Completing? then PlatformStep(p, s, paths[|paths| - 1]) else s
  }

  lemma TemplateLoopNext(kind: string, t: Json, p: Json, rs: seq<string>, paths: seq<string>, i: nat)
    requires i < |paths| && TemplateLoop(kind, t, p, rs, paths[..i]).Going?
    ensures TemplateLoop(kind, t, p, rs, paths[..i + 1]) ==
            TemplateStep(kind, p, rs, TemplateLoop(kind, t, p, rs, paths[..i]), paths[i])
  {
    assert paths[..i + 1][..i] == paths[..i];
  }

  /** A loop that stopped stays stopped. */
  lemma {:induction false} TemplateLoopStops(kind: string, t: Json, p: Json, rs: seq<string>, paths: seq<string>,
                                             i: nat)
    requires i <= |paths| && !TemplateLoop(kind, t, p, rs, paths[..i]).Going?
    ensures TemplateLoop(kind, t, p, rs, paths) == TemplateLoop(kind, t, p, rs, paths[..i])
    decreases |paths|
  {
    hide TemplateStep;
    if i == |paths| {
      assert paths[..i] == paths;
    } else {
      assert paths[..|paths| - 1][..i] == paths[..i];
      TemplateLoopStops(kind, t, p, rs, paths[..|paths| - 1], i);
    }
  }

  lemma PlatformLoopNext(cfg: Json, compared: set<string>, p: Json, paths: seq<string>, i: nat)
    requires i < |paths| && PlatformLoop(cfg, compared, p, paths[..i]).Completing?
    ensures PlatformLoop(cfg, compared, p, paths[..i + 1]) ==
            PlatformStep(p, PlatformLoop(cfg, compared, p, paths[..i]), paths[i])
  {
    assert paths[..i + 1][..i] == paths[..i];
  }

  lemma {:induction false} PlatformLoopStops(cfg: Json, compared: set<string>, p: Json, paths: seq<string>, i: nat)
    requires i <= |paths| && PlatformLoop(cfg, compared, p, paths[..i]).Broken?
    ensures PlatformLoop(cfg, compared, p, paths) == PlatformLoop(cfg, compared, p, paths[..i])
    decreases |paths|
  {
    hide PlatformStep;
    if i == |paths| {
      assert paths[..i] == paths;
    } else {
      assert paths[..|paths| - 1][..i] == paths[..i];
      PlatformLoopStops(cfg, compared, p, paths[..|paths| - 1], i);
    }
  }

  // ---- preserve arguments that are no pointers ----

  /** Two loops that differ in compared paths that are no pointers. */
  ghost predicate Alike(a: Progress, b: Progress) {
    if a.Going? then b.Going? && b.config == a.config && b.added == a.added &&
                     AlikeIn(a.compared, b.compared) else b == a
  }

  ghost predicate AlikeIn(a: set<string>, b: set<string>) {
    forall s :: !NoPointer(s) ==> (s in a <==> s in b)
  }

  lemma {:induction false} OnlyPointersBegin(rs: seq<string>, s: string)
    requires !NoPointer(s)
    ensures AnyPrefix(PointersIn(rs), s) <==> AnyPrefix(rs, s)
  {
    hide AnyPrefix;
    if rs != [] {
      var init, last := rs[..|rs| - 1], rs[|rs| - 1];
      assert rs == init + [last] && PointersIn(init) + [] == PointersIn(init);
      OnlyPointersBegin(init, s);
      AnyPrefixGrows(init, last, s);
      AnyPrefixGrows(PointersIn(init), last, s);
      if last <= s && last != "" { assert last[0] == s[0]; }
    }
  }

  /** Among the preserve arguments and in the path list, what is no pointer makes no difference. */
  lemma {:induction false} TemplateLoopIgnores(kind: string, t: Json, p: Json, rs: seq<string>, paths: seq<string>)
    requires forall k :: 0 <= k < |paths| && NoPointer(paths[k]) ==> AnyPrefix(rs, paths[k])
    ensures Alike(TemplateLoop(kind, t, p, rs, paths), TemplateLoop(kind, t, p, PointersIn(rs), PointersIn(paths)))
  {
    hide TemplateStep, NoPointer, AnyPrefix, Alike;
    if paths == [] {
      NothingLoopedAlike(kind, t, p, rs);
    } else {
      var init, last := paths[..|paths| - 1], paths[|paths| - 1];
      TemplateLoopIgnores(kind, t, p, rs, init);
      var a, b := TemplateLoop(kind, t, p, rs, init), TemplateLoop(kind, t, p, PointersIn(rs), PointersIn(init));
      AlikeGoing(a, b);
      if NoPointer(last) {
        assert PointersIn(init) + [] == PointersIn(init);
        if a.Going? { StepIgnored(kind, p, rs, a, b, last); }
      } else {
        assert (PointersIn(init) + [last])[..|PointersIn(init)|] == PointersIn(init);
        if a.Going? { StepAlike(kind, p, rs, a, b, last); }
      }
    }
  }

  lemma NothingLoopedAlike(kind: string, t: Json, p: Json, rs: seq<string>)
    ensures Alike(TemplateLoop(kind, t, p, rs, []), TemplateLoop(kind, t, p, PointersIn(rs), PointersIn([])))
  {
  }

  lemma AlikeGoing(a: Progress, b: Progress)
    requires Alike(a, b)
    ensures (a.Going? <==> b.Going?) && (!a.Going? ==> b == a)
  {
  }

  lemma StepIgnored(kind: string, p: Json, rs: seq<string>, a: Progress, b: Progress, path: string)
    requires a.Going? && Alike(a, b) && NoPointer(path) && AnyPrefix(rs, path)
    ensures Alike(TemplateStep(kind, p, rs, a, path), b)
  {
    hide NoPointer, AnyPrefix, Get, Delete, Dec, ImmutableFields;
  }

  lemma StepAlike(kind: string, p: Json, rs: seq<string>, a: Progress, b: Progress, path: string)
    requires a.Going? && b.Going? && Alike(a, b) && !NoPointer(path)
    ensures Alike(TemplateStep(kind, p, rs, a, path), TemplateStep(kind, p, PointersIn(rs), b, path))
  {
    hide NoPointer, AnyPrefix, Get, Delete, Dec, ImmutableFields, PointersIn;
    OnlyPointersBegin(rs, path);
  }

  lemma {:induction false} PlatformLoopAlike(cfg: Json, compared: set<string>, compared': set<string>, p: Json,
                                             paths: seq<string>)
    requires AlikeIn(compared, compared') && Slashed(paths)
    ensures var a, b := PlatformLoop(cfg, compared, p, paths), PlatformLoop(cfg, compared', p, paths);
            if a.Completing? then b.Completing? && b.config == a.config && b.deleted == a.deleted &&
                                  AlikeIn(a.compared, b.compared)
            else b == a
  {
    hide Get, Set, Dec, NoPointer, AnyPrefix, EmptyCollection, PlatformStep, AlikeIn;
    if paths != [] {
      PlatformLoopAlike(cfg, compared, compared', p, paths[..|paths| - 1]);
      var a := PlatformLoop(cfg, compared, p, paths[..|paths| - 1]);
      var b := PlatformLoop(cfg, compared', p, paths[..|paths| - 1]);
      if a.Completing? { PlatformStepAlike(p, a, b, paths[|paths| - 1]); }
    }
  }

  lemma PlatformStepAlike(p: Json, a: Completion, b: Completion, path: string)
    requires a.Completing? && b.Completing? && b.config == a.config && b.deleted == a.deleted
    requires AlikeIn(a.compared, b.compared)
    requires !NoPointer(path)
    ensures var a', b' := PlatformStep(p, a, path), PlatformStep(p, b, path);
            if a'.Completing? then
              b'.Completing? && b'.config == a'.config && b'.deleted == a'.deleted && AlikeIn(a'.compared, b'.compared)
            else b' == a'
  {
    hide Get, Set, Dec, NoPointer, AnyPrefix, EmptyCollection;
  }

  /** With the empty path, every path of the template is only noted as compared. */
  lemma {:induction false} TemplateLoopPreservesAll(kind: string, t: Json, p: Json, rs: seq<string>, paths: seq<string>)
    requires "" in rs
    ensures var s := TemplateLoop(kind, t, p, rs, paths);
            s.Going? && s.config == t && s.added == [] && forall x :: x in s.compared <==> x in paths
  {
    hide Get, Delete, Dec, ImmutableFields, AnyPrefix;
    if paths != [] {
      var init, last := paths[..|paths| - 1], paths[|paths| - 1];
      TemplateLoopPreservesAll(kind, t, p, rs, init);
      assert paths == init + [last];
      EmptyIsPrefix(rs, last);
      NothingIsPrefix(last);
    }
  }

  lemma {:induction false} PlatformLoopSkipsAll(cfg: Json, compared: set<string>, p: Json, paths: seq<string>)
    requires forall k :: 0 <= k < |paths| ==> paths[k] in compared
    ensures PlatformLoop(cfg, compared, p, paths) == Completing(cfg, compared, [])
  {
    if paths != [] { PlatformLoopSkipsAll(cfg, compared, p, paths[..|paths| - 1]); }
  }
}
