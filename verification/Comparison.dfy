/** The two path loops of calculateChanges (pkg/openshift/changeset.go), on values: what they know after
    some of the paths, why every step keeps it, and what it amounts to in the end. */
module Comparison {
  import opened Wrappers
  import opened Text
  import opened Documents
  import opened Pointers
  import opened Merging
  import opened Walking
  import opened Preparing
  import opened Platform

  function ImmutableFields(kind: string): seq<string> {
    if kind == "PersistentVolumeClaim" then
      ["/spec/accessModes", "/spec/storageClassName", "/spec/resources/requests/storage"]
    else if kind == "Route" then ["/spec/host"]
    else if kind == "Secret" then ["/type"]
    else []
  }

  /** The template wants another scalar at an immutable field than the platform has, or wants one where
      the platform, though it has the parent, has none. */
  predicate Mismatch(kind: string, t: Json, p: Json, q: Position) {
    && q != [] && Enc(q) in ImmutableFields(kind) && Has(t, q) && Has(p, Parent(q))
    && (!Has(p, q) || (!IsCollection(Get(t, q).value) && Get(t, q) != Get(p, q)))
  }

  ghost predicate AnyMismatch(kind: string, t: Json, p: Json) {
    exists q :: Mismatch(kind, t, p, q)
  }

  /** Positions which the comparison reports as present on the platform only. */
  predicate Reported(t: Json, p: Json, q: Position) {
    Has(p, q) && !Has(t, q) && Get(p, q) != Some(Null) && !EmptyCollection(Get(p, q).value)
  }

  /** The pointer of x is a string prefix of the pointer of y although y is not below x. */
  predicate Hides(x: Position, y: Position) {
    Enc(x) <= Enc(y) && !(x <= y)
  }

  /** No path is skipped because of the raw prefix test without being below the path it is skipped for. */
  ghost predicate NothingHidden(t: Json, p: Json, rs: seq<string>) {
    && (forall x, y :: Added(t, p, x) && y != [] && Has(t, y) ==> !Hides(x, y))
    && (forall x, y :: Reported(t, p, x) && Kept(t, p, y) ==> !Hides(x, y))
    && (forall i, y :: 0 <= i < |rs| && y != [] && Has(t, y) ==> !Hides(Dec(rs[i]), y))
  }

  /** Two prepared documents, and the template's path list, as the first loop finds them. */
  ghost predicate Comparable(t: Json, p: Json, paths: seq<string>, rs: seq<string>) {
    && Lists(paths, t, p, rs)
    && AllProper(rs)
    && AgreeAll(t, p, rs)
    && NothingHidden(t, p, rs)
  }

  // ---- the first loop: template paths ----

  /** The template's document after the paths done so far. */
  ghost predicate Edited(t: Json, p: Json, done: seq<string>, cfg: Json) {
    forall q :: LabelAt(cfg, q) == if q != [] && Enc(q) in done && Dropped(t, p, q) then None else LabelAt(t, q)
  }

  /** What the paths done so far have told. */
  ghost predicate Noted(t: Json, p: Json, kind: string, done: seq<string>, added: seq<string>, compared: set<string>) {
    && (forall s :: s in added <==> s in done && Added(t, p, Dec(s)))
    && (forall s :: s in compared ==> s in done)
    && (forall q :: q != [] && Enc(q) in done && Has(p, q) ==> Enc(q) in compared)
    && (forall s :: s in done ==> !Mismatch(kind, t, p, Dec(s)))
    && (forall s :: s in done && Dropped(t, p, Dec(s)) ==> HoldsObject(t, Parent(Dec(s))))
  }

  lemma {:induction false} FirstMissing(t: Json, p: Json, q: Position)
    requires Has(t, q) && !Has(p, q)
    ensures exists n :: 0 < n <= |q| && OnlyIn(t, p, q[..n])
    decreases |q|
  {
    assert Get(p, []) == Some(p);
    assert q != [];
    if Has(p, Parent(q)) {
      assert q[..|q|] == q;
    } else {
      GetPrefix(t, Parent(q), q);
      FirstMissing(t, p, Parent(q));
      var n :| 0 < n <= |q| - 1 && OnlyIn(t, p, Parent(q)[..n]);
      assert Parent(q)[..n] == q[..n];
    }
  }

  /** A path is skipped for an added path only when the platform has neither it nor, unless it is itself
      the added path, its parent. */
  lemma SkippedMeaning(t: Json, p: Json, kind: string, done: seq<string>, added: seq<string>, compared: set<string>,
                       rs: seq<string>, q: Position)
    requires Noted(t, p, kind, done, added, compared) && NothingHidden(t, p, rs)
    requires forall s :: s in done ==> s == Enc(Dec(s))
    requires q != [] && Has(t, q) && AnyPrefix(added, Enc(q))
    ensures !Has(p, q) && (Has(p, Parent(q)) ==> Added(t, p, q) && Enc(q) in done)
  {
    var i :| 0 <= i < |added| && added[i] <= Enc(q);
    var x := Dec(added[i]);
    assert added[i] in added;
    assert !Hides(x, q);
    PrefixCases(x, q);
    if Has(p, q) { GetPrefix(p, x, q); }
    if x != q && Has(p, Parent(q)) { GetPrefix(p, x, Parent(q)); }
  }

  /** A path that is neither skipped nor preserved has its parent on the platform. */
  lemma NotSkippedMeaning(t: Json, p: Json, kind: string, done: seq<string>, added: seq<string>, compared: set<string>,
                          q: Position)
    requires Noted(t, p, kind, done, added, compared)
    requires q != [] && Has(t, q) && AncestorsIn(q, [], done)
    ensures !AnyPrefix(added, Enc(q)) ==> Has(p, Parent(q))
  {
    var up := Parent(q);
    if !Has(p, up) {
      GetPrefix(t, up, q);
      FirstMissing(t, p, up);
      var n :| 0 < n <= |up| && OnlyIn(t, p, up[..n]);
      var x := q[..n];
      assert up[..n] == x;
      GetPrefix(t, x, q);
      assert Added(t, p, x);
      assert Enc(x) in done;
      DecEnc(x);
      EncPrefixOfDescendant(x, q);
      assert Enc(x) in added;
      assert AnyPrefix(added, Enc(q));
    }
  }

  /** Preserved positions are never dropped, added or mismatched. */
  lemma PreservedMeaning(t: Json, p: Json, kind: string, rs: seq<string>, q: Position)
    requires NothingHidden(t, p, rs) && AgreeAll(t, p, rs)
    requires AllProper(rs)
    requires q != [] && AnyPrefix(rs, Enc(q))
    ensures !OnlyIn(t, p, q) && !Mismatch(kind, t, p, q)
  {
    if Has(t, q) {
      var i :| 0 <= i < |rs| && rs[i] <= Enc(q);
      assert ProperPointer(rs[i]) && !Hides(Dec(rs[i]), q) && Agree(t, p, Dec(rs[i]));
      SameBelowPrefix(t, p, Dec(rs[i]), q);
    }
  }

  /** One more path, whatever the loop does with it, when it edits nothing. */
  lemma NotePath(t: Json, p: Json, kind: string, done: seq<string>, added: seq<string>, compared: set<string>,
                 s: string, added': seq<string>, compared': set<string>)
    requires Noted(t, p, kind, done, added, compared)
    requires s == Enc(Dec(s)) && Dec(s) != []
    requires added' == (if Added(t, p, Dec(s)) && s !in done then added + [s] else added)
    requires compared <= compared' <= compared + {s}
    requires Has(p, Dec(s)) ==> s in compared'
    requires !Mismatch(kind, t, p, Dec(s))
    requires Dropped(t, p, Dec(s)) ==> HoldsObject(t, Parent(Dec(s)))
    ensures Noted(t, p, kind, done + [s], added', compared')
  {
    var done' := done + [s];
    forall x ensures x in done' <==> x in done || x == s {}
    forall x ensures x in added' <==> x in done' && Added(t, p, Dec(x)) {}
    forall q | q != [] && Enc(q) in done' && Has(p, q) ensures Enc(q) in compared' {
      DecEnc(q);
    }
  }

  lemma NotDropped(t: Json, p: Json, done: seq<string>, cfg: Json, s: string)
    requires Edited(t, p, done, cfg) && !Dropped(t, p, Dec(s))
    ensures Edited(t, p, done + [s], cfg)
  {
    forall q | Enc(q) == s ensures Dec(s) == q { DecEnc(q); }
  }

  /** Dropping a path succeeds exactly when it is a member of an object. */
  lemma {:induction false} DropPath(t: Json, p: Json, done: seq<string>, cfg: Json, s: string)
    requires Edited(t, p, done, cfg)
    requires s == Enc(Dec(s)) && s !in done && Dropped(t, p, Dec(s))
    ensures Delete(cfg, Dec(s)).Some? <==> HoldsObject(t, Parent(Dec(s)))
    ensures Delete(cfg, Dec(s)).Some? ==> Edited(t, p, done + [s], Delete(cfg, Dec(s)).value)
  {
    var at := Dec(s);
    DeleteEffect(cfg, at);
    GetLast(t, at);
    assert LabelAt(cfg, at) == LabelAt(t, at);
    assert !Dropped(t, p, Parent(at));
    assert LabelAt(cfg, Parent(at)) == LabelAt(t, Parent(at));
    if Delete(cfg, at).Some? {
      var cfg' := Delete(cfg, at).value;
      forall q
        ensures LabelAt(cfg', q) == if q != [] && Enc(q) in done + [s] && Dropped(t, p, q) then None else LabelAt(t, q)
      {
        PrefixCases(at, q);
        if at < q { BelowString(t, at, q); }
        if Enc(q) == s { DecEnc(q); }
      }
    }
  }

  /** A string has nothing below it. */
  lemma {:induction false} BelowString(t: Json, at: Position, q: Position)
    requires at < q && Has(t, at) && !IsCollection(Get(t, at).value)
    ensures !Has(t, q)
  {
    if Has(t, q) { GetPrefix(t, at, q); }
  }

  /** A position with an unchanged label holds the same scalar, or a collection as before. */
  lemma {:induction false} SameScalar(a: Json, b: Json, q: Position)
    requires Has(b, q) && LabelAt(a, q) == LabelAt(b, q)
    ensures Has(a, q) && (IsCollection(Get(a, q).value) <==> IsCollection(Get(b, q).value))
    ensures !IsCollection(Get(b, q).value) ==> Get(a, q) == Get(b, q)
  {
  }

  /** The first loop has done the paths before the i-th. */
  ghost predicate BeforePath(t: Json, p: Json, kind: string, paths: seq<string>, i: nat, rs: seq<string>,
                             added: seq<string>, compared: set<string>, cfg: Json)
    requires i <= |paths|
  {
    Comparable(t, p, paths, rs) && Edited(t, p, paths[..i], cfg) && Noted(t, p, kind, paths[..i], added, compared)
  }

  lemma SkippedPath(t: Json, p: Json, kind: string, paths: seq<string>, i: nat, rs: seq<string>,
                    added: seq<string>, compared: set<string>, cfg: Json)
    requires i < |paths| && BeforePath(t, p, kind, paths, i, rs, added, compared, cfg)
    requires AnyPrefix(added, paths[i])
    ensures BeforePath(t, p, kind, paths, i + 1, rs, added, compared, cfg)
  {
    hide Enc, Dec, Get;
    var s, done := paths[i], paths[..i];
    assert ListsPath(s, t, p, rs) && paths[..i + 1] == done + [s];
    SkippedFacts(t, p, kind, paths, done, added, compared, rs, s);
    NotDropped(t, p, done, cfg, s);
    NotePath(t, p, kind, done, added, compared, s, added, compared);
  }

  lemma SkippedFacts(t: Json, p: Json, kind: string, paths: seq<string>, done: seq<string>, added: seq<string>,
                     compared: set<string>, rs: seq<string>, s: string)
    requires Lists(paths, t, p, rs) && done <= paths
    requires Noted(t, p, kind, done, added, compared) && NothingHidden(t, p, rs)
    requires ListsPath(s, t, p, rs) && AnyPrefix(added, s)
    ensures !Has(p, Dec(s)) && !Dropped(t, p, Dec(s)) && !Mismatch(kind, t, p, Dec(s))
    ensures Added(t, p, Dec(s)) ==> s in done
  {
    hide Enc, Dec, Get, ImmutableFields, AnyPrefix, NothingHidden;
    assert forall k :: 0 <= k < |paths| ==> ListsPath(paths[k], t, p, rs);
    assert forall x :: x in done ==> x == Enc(Dec(x));
    if Has(t, Dec(s)) {
      SkippedMeaning(t, p, kind, done, added, compared, rs, Dec(s));
    }
  }

  lemma PreservedPath(t: Json, p: Json, kind: string, paths: seq<string>, i: nat, rs: seq<string>,
                      added: seq<string>, compared: set<string>, cfg: Json)
    requires i < |paths| && BeforePath(t, p, kind, paths, i, rs, added, compared, cfg)
    requires AnyPrefix(rs, paths[i])
    ensures BeforePath(t, p, kind, paths, i + 1, rs, added, compared + {paths[i]}, cfg)
  {
    hide Enc, Dec, Get;
    var s, done := paths[i], paths[..i];
    assert ListsPath(s, t, p, rs) && paths[..i + 1] == done + [s];
    PreservedMeaning(t, p, kind, rs, Dec(s));
    NotDropped(t, p, done, cfg, s);
    NotePath(t, p, kind, done, added, compared, s, added, compared + {s});
  }

  /** What holds at a path that the loop compares. */
  lemma ComparedPath(t: Json, p: Json, kind: string, paths: seq<string>, i: nat, rs: seq<string>,
                     added: seq<string>, compared: set<string>, cfg: Json)
    requires i < |paths| && BeforePath(t, p, kind, paths, i, rs, added, compared, cfg)
    requires !AnyPrefix(added, paths[i]) && !AnyPrefix(rs, paths[i])
    ensures var q := Dec(paths[i]);
            && paths[i] == Enc(q) && q != [] && paths[i] !in paths[..i]
            && Has(t, q) && Has(p, Parent(q)) && LabelAt(cfg, q) == LabelAt(t, q)
  {
    hide Enc, Dec, Get, Edited;
    var s, done := paths[i], paths[..i];
    assert ListsPath(s, t, p, rs) && AncestorsIn(Dec(s), [], done);
    NotSkippedMeaning(t, p, kind, done, added, compared, Dec(s));
    forall k | 0 <= k < i ensures paths[k] != s {}
    ReadPath(t, p, done, cfg, s);
  }

  lemma ReadPath(t: Json, p: Json, done: seq<string>, cfg: Json, s: string)
    requires Edited(t, p, done, cfg) && s == Enc(Dec(s)) && s !in done
    ensures LabelAt(cfg, Dec(s)) == LabelAt(t, Dec(s))
  {
  }

  /** The template's value is the empty string, the platform has none: the path is dropped. */
  lemma {:induction false} DroppedPath(t: Json, p: Json, kind: string, paths: seq<string>, i: nat, rs: seq<string>,
                                       added: seq<string>, compared: set<string>, cfg: Json)
    requires i < |paths| && BeforePath(t, p, kind, paths, i, rs, added, compared, cfg)
    requires paths[i] == Enc(Dec(paths[i])) && paths[i] !in paths[..i] && Dropped(t, p, Dec(paths[i]))
    requires paths[i] !in ImmutableFields(kind)
    ensures var edited := Delete(cfg, Dec(paths[i]));
            if edited.Some? then BeforePath(t, p, kind, paths, i + 1, rs, added, compared + {paths[i]}, edited.value)
            else !DropsMembersOnly(t, p)
  {
    hide Enc, Dec, Get, Delete, ImmutableFields, HoldsObject;
    var s, done := paths[i], paths[..i];
    assert paths[..i + 1] == done + [s];
    DropPath(t, p, done, cfg, s);
    if Delete(cfg, Dec(s)).Some? {
      NotePath(t, p, kind, done, added, compared, s, added, compared + {s});
    }
  }

  /** Any other path: either the loop goes on, noting it, or it is an immutable mismatch. */
  lemma NotedPath(t: Json, p: Json, kind: string, paths: seq<string>, i: nat, rs: seq<string>,
                  added: seq<string>, compared: set<string>, cfg: Json)
    requires i < |paths| && BeforePath(t, p, kind, paths, i, rs, added, compared, cfg)
    requires paths[i] == Enc(Dec(paths[i])) && Dec(paths[i]) != [] && paths[i] !in paths[..i]
    requires !Dropped(t, p, Dec(paths[i])) && !Mismatch(kind, t, p, Dec(paths[i]))
    ensures BeforePath(t, p, kind, paths, i + 1, rs, if Added(t, p, Dec(paths[i])) then added + [paths[i]] else added,
                       compared + {paths[i]}, cfg)
  {
    hide Enc, Dec, Get, ImmutableFields;
    var s, done := paths[i], paths[..i];
    assert paths[..i + 1] == done + [s];
    NotDropped(t, p, done, cfg, s);
    NotePath(t, p, kind, done, added, compared, s, if Added(t, p, Dec(s)) then added + [s] else added, compared + {s});
  }

  // ---- the second loop: platform paths ----

  /** The template's document, edited by the first loop into mid, after the platform paths done so far. */
  ghost predicate Completed(t: Json, p: Json, done: seq<string>, mid: Json, cfg: Json) {
    forall q :: LabelAt(cfg, q) == if q != [] && Enc(q) in done && Kept(t, p, q) then LabelAt(p, q) else LabelAt(mid, q)
  }

  /** Reported collections, whose members the loop must not look at again; it does look at annotations. */
  predicate NeedsCover(t: Json, p: Json, q: Position) {
    q != [] && Reported(t, p, q) && q != ANNOTATIONS && IsCollection(Get(p, q).value)
  }

  ghost predicate AllReported(t: Json, p: Json, deleted: seq<string>) {
    forall s :: s in deleted ==> s == Enc(Dec(s)) && Reported(t, p, Dec(s))
  }

  ghost predicate Covered(t: Json, p: Json, done: seq<string>, deleted: seq<string>) {
    forall q :: NeedsCover(t, p, q) && Enc(q) in done ==> AnyPrefix(deleted, Enc(q))
  }

  ghost predicate KeptHeld(t: Json, p: Json, done: seq<string>) {
    forall s :: s in done && Kept(t, p, Dec(s)) ==> HoldsObject(t, Parent(Dec(s)))
  }

  /** What the platform paths done so far have told. Positions below a reported one are covered by it. */
  ghost predicate Told(t: Json, p: Json, done: seq<string>, deleted: seq<string>) {
    AllReported(t, p, deleted) && Covered(t, p, done, deleted) && KeptHeld(t, p, done)
  }

  lemma AnyPrefixDown(haystack: seq<string>, x: string, y: string)
    requires AnyPrefix(haystack, x) && x <= y
    ensures AnyPrefix(haystack, y)
  {
    var i :| 0 <= i < |haystack| && haystack[i] <= x;
    assert haystack[i] <= y;
  }

  /** An empty collection that the template is to take over is never skipped. */
  lemma KeptNotSkipped(t: Json, p: Json, done: seq<string>, deleted: seq<string>, rs: seq<string>, q: Position)
    requires Told(t, p, done, deleted) && NothingHidden(t, p, rs)
    requires Kept(t, p, q)
    ensures !AnyPrefix(deleted, Enc(q))
  {
    forall i | 0 <= i < |deleted| ensures !(deleted[i] <= Enc(q)) {
      var x := Dec(deleted[i]);
      assert deleted[i] in deleted;
      assert !Hides(x, q);
      PrefixCases(x, q);
      if x < q { GetPrefixOrNot(t, x, Parent(q)); }
    }
  }

  lemma GetPrefixOrNot(t: Json, x: Position, y: Position)
    requires Has(t, y)
    ensures x <= y ==> Has(t, x)
  {
    if x <= y { GetPrefix(t, x, y); }
  }

  /** An empty collection that is only on the platform and not below a reported path is one that the
      template is to take over. */
  lemma {:induction false} NotSkippedKept(t: Json, p: Json, done: seq<string>, deleted: seq<string>, q: Position)
    requires Told(t, p, done, deleted) && PlainAnnotations(p)
    requires q != [] && AncestorsIn(q, [], done)
    requires Has(p, q) && !Has(t, q) && EmptyCollection(Get(p, q).value)
    ensures !AnyPrefix(deleted, Enc(q)) ==> Kept(t, p, q)
  {
    var up := Parent(q);
    assert up == q[..|q| - 1];
    NotEmpty(p, up, q);
    if !Has(t, up) {
      assert Get(t, []) == Some(t);
      NotAnAnnotation(p, q);
      assert NeedsCover(t, p, up) && Enc(up) in done;
      EncPrefixOfDescendant(up, q);
      AnyPrefixDown(deleted, Enc(up), Enc(q));
    }
  }

  lemma {:induction false} NotAnAnnotation(p: Json, q: Position)
    requires PlainAnnotations(p) && q != [] && Has(p, q) && IsCollection(Get(p, q).value)
    ensures Parent(q) != ANNOTATIONS
  {
    if Parent(q) == ANNOTATIONS {
      assert q == AnnotationAt(q[2]);
      AnnotationSteps(p, q[2]);
    }
  }

  lemma {:induction false} NotEmpty(p: Json, up: Position, q: Position)
    requires Has(p, q) && up < q
    ensures Has(p, up) && IsCollection(Get(p, up).value) && !EmptyCollection(Get(p, up).value)
    ensures Get(p, up) != Some(Null)
  {
    GetPrefix(p, up, q);
  }

  /** One more platform path that edits nothing. */
  lemma TellPath(t: Json, p: Json, done: seq<string>, deleted: seq<string>, s: string, deleted': seq<string>)
    requires Told(t, p, done, deleted)
    requires s == Enc(Dec(s)) && Dec(s) != [] && Has(p, Dec(s))
    requires deleted' == deleted || (deleted' == deleted + [s] && Reported(t, p, Dec(s)))
    requires NeedsCover(t, p, Dec(s)) ==> AnyPrefix(deleted', s)
    requires Kept(t, p, Dec(s)) ==> HoldsObject(t, Parent(Dec(s)))
    ensures Told(t, p, done + [s], deleted')
  {
    var done' := done + [s];
    forall q | NeedsCover(t, p, q) && Enc(q) in done' ensures AnyPrefix(deleted', Enc(q)) {
      if Enc(q) == s {
        DecEnc(q);
      } else {
        assert Enc(q) in done;
        AnyPrefixGrows(deleted, s, Enc(q));
      }
    }
    assert AllReported(t, p, deleted');
    assert KeptHeld(t, p, done');
  }

  lemma NotKept(t: Json, p: Json, done: seq<string>, mid: Json, cfg: Json, s: string)
    requires Completed(t, p, done, mid, cfg) && !Kept(t, p, Dec(s))
    ensures Completed(t, p, done + [s], mid, cfg)
  {
    forall q | Enc(q) == s ensures Dec(s) == q { DecEnc(q); }
  }

  /** Taking an empty collection over succeeds exactly when its parent in the template is an object. */
  lemma {:induction false} KeepPath(t: Json, p: Json, paths: seq<string>, done: seq<string>, mid: Json, cfg: Json,
                                    s: string, v: Json)
    requires Edited(t, p, paths, mid) && Completed(t, p, done, mid, cfg)
    requires s == Enc(Dec(s)) && s !in done && Kept(t, p, Dec(s)) && Get(p, Dec(s)) == Some(v)
    ensures Set(cfg, Dec(s), v).Some? <==> HoldsObject(t, Parent(Dec(s)))
    ensures Set(cfg, Dec(s), v).Some? ==> Completed(t, p, done + [s], mid, Set(cfg, Dec(s), v).value)
  {
    hide Enc, Dec, Set, Kept, HoldsObject;
    var at := Dec(s);
    KeptNeeds(t, p, at);
    SetEffect(cfg, at, v);
    KeptUntouched(t, p, paths, done, mid, cfg, at);
    if Set(cfg, at, v).Some? {
      forall q
        ensures LabelAt(Set(cfg, at, v).value, q) ==
                if q != [] && Enc(q) in done + [s] && Kept(t, p, q) then LabelAt(p, q) else LabelAt(mid, q)
      {
        KeepLabel(t, p, paths, done, mid, cfg, Set(cfg, at, v).value, at, v, q);
      }
    }
  }

  lemma {:induction false} KeepLabel(t: Json, p: Json, paths: seq<string>, done: seq<string>, mid: Json, cfg: Json,
                                     cfg': Json,
                                     at: Position, v: Json, q: Position)
    requires Edited(t, p, paths, mid) && Completed(t, p, done, mid, cfg)
    requires Kept(t, p, at) && Get(p, at) == Some(v)
    requires LabelAt(cfg', q) == if at <= q then LabelAt(v, q[|at|..]) else LabelAt(cfg, q)
    ensures LabelAt(cfg', q) ==
            if q != [] && Enc(q) in done + [Enc(at)] && Kept(t, p, q) then LabelAt(p, q) else LabelAt(mid, q)
  {
    hide Enc, Dec, Get;
    PrefixCases(at, q);
    KeptBelow(t, p, at, v, q);
    DecEnc(q);
    DecEnc(at);
    if at < q { assert LabelAt(mid, q) == LabelAt(t, q); }
  }

  lemma {:induction false} KeptNeeds(t: Json, p: Json, at: Position)
    requires Kept(t, p, at)
    ensures at != [] && Has(t, Parent(at))
    ensures HoldsObject(t, Parent(at)) <==> Get(t, Parent(at)).value.Obj?
  {
  }

  lemma KeptUntouched(t: Json, p: Json, paths: seq<string>, done: seq<string>, mid: Json, cfg: Json, at: Position)
    requires Edited(t, p, paths, mid) && Completed(t, p, done, mid, cfg)
    requires Enc(at) !in done && Kept(t, p, at)
    ensures !Has(cfg, at) && LabelAt(cfg, Parent(at)) == LabelAt(t, Parent(at))
  {
    GetLast(p, at);
    assert LabelAt(cfg, at) == LabelAt(mid, at) == None;
    assert LabelAt(cfg, Parent(at)) == LabelAt(mid, Parent(at)) == LabelAt(t, Parent(at));
  }

  /** The labels at and below a position that is taken over. */
  lemma {:induction false} KeptBelow(t: Json, p: Json, at: Position, v: Json, q: Position)
    requires Kept(t, p, at) && Get(p, at) == Some(v)
    ensures q == at ==> LabelAt(v, q[|at|..]) == LabelAt(p, q)
    ensures at < q ==> LabelAt(v, q[|at|..]) == None && !Has(p, q) && !Has(t, q)
  {
    if q == at {
      assert q[|at|..] == [];
    } else if at < q {
      BelowEmpty(p, at, q);
      LabelBelowEmpty(v, q[|at|..]);
      BelowMissing(t, at, q);
    }
  }

  lemma {:induction false} BelowEmpty(p: Json, at: Position, q: Position)
    requires at < q && Has(p, at) && EmptyCollection(Get(p, at).value)
    ensures !Has(p, q)
  {
    if Has(p, q) { NotEmpty(p, at, q); }
  }

  lemma BelowMissing(t: Json, at: Position, q: Position)
    requires at <= q && !Has(t, at)
    ensures !Has(t, q)
  {
    if Has(t, q) { GetPrefix(t, at, q); }
  }

  lemma LabelBelowEmpty(v: Json, rest: Position)
    requires EmptyCollection(v) && rest != []
    ensures LabelAt(v, rest) == None
  {
    LabelStep(v, rest);
  }

  /** The second loop has done the paths before the i-th. */
  ghost predicate BeforePlatformPath(t: Json, p: Json, tPaths: seq<string>, pPaths: seq<string>, i: nat,
                                     rs: seq<string>,
                                     deleted: seq<string>, mid: Json, cfg: Json)
    requires i <= |pPaths|
  {
    && Comparable(t, p, tPaths, rs) && IsWalk(pPaths, p) && PlainAnnotations(p) && Edited(t, p, tPaths, mid)
    && Completed(t, p, pPaths[..i], mid, cfg) && Told(t, p, pPaths[..i], deleted)
  }

  /** A platform path has been compared exactly when the template has it too. */
  lemma ComparedMeaning(t: Json, p: Json, kind: string, tPaths: seq<string>, rs: seq<string>, added: seq<string>,
                        compared: set<string>, s: string)
    requires Comparable(t, p, tPaths, rs) && Noted(t, p, kind, tPaths, added, compared) && PointerInto(s, p)
    ensures s in compared <==> Has(t, Dec(s))
  {
    hide Enc, Dec, Get, NothingHidden;
    if Has(t, Dec(s)) { assert Enc(Dec(s)) in tPaths; }
    if s in compared {
      assert s in tPaths;
      assert ListsPath(s, t, p, rs);
    }
  }

  lemma PlatformPointer(p: Json, pPaths: seq<string>, i: nat)
    requires IsWalk(pPaths, p) && i < |pPaths|
    ensures PointerInto(pPaths[i], p) && AncestorsIn(Dec(pPaths[i]), [], pPaths[..i]) && pPaths[i] !in pPaths[..i]
  {
    hide Enc, Dec, Get;
    WalkIsExact(pPaths, p);
    assert PointerInto(pPaths[i], p);
    forall k | 0 <= k < i ensures pPaths[k] != pPaths[i] {}
  }

  /** Platform paths that the loop passes over: the template also has them, they are skipped, their value
      is null, or they are the annotations and there are some. */
  predicate PassedOver(t: Json, p: Json, q: Position, deleted: seq<string>)
    requires Has(p, q)
  {
    Has(t, q) || AnyPrefix(deleted, Enc(q)) || Get(p, q) == Some(Null) ||
    (q == ANNOTATIONS && !EmptyCollection(Get(p, q).value))
  }

  lemma PlatformPathTold(t: Json, p: Json, tPaths: seq<string>, pPaths: seq<string>, i: nat, rs: seq<string>,
                         deleted: seq<string>, mid: Json, cfg: Json)
    requires i < |pPaths| && BeforePlatformPath(t, p, tPaths, pPaths, i, rs, deleted, mid, cfg)
    ensures PointerInto(pPaths[i], p)
    ensures PassedOver(t, p, Dec(pPaths[i]), deleted) ==>
              BeforePlatformPath(t, p, tPaths, pPaths, i + 1, rs, deleted, mid, cfg)
    ensures Reported(t, p, Dec(pPaths[i])) ==>
              BeforePlatformPath(t, p, tPaths, pPaths, i + 1, rs, deleted + [pPaths[i]], mid, cfg)
  {
    hide Enc, Dec, Get, Completed, Told, NothingHidden, PassedOver, Reported, IsWalk, Edited, PlainAnnotations, Lists,
      AgreeAll, PointerInto;
    var s, done := pPaths[i], pPaths[..i];
    PlatformPointer(p, pPaths, i);
    assert pPaths[..i + 1] == done + [s];
    PlatformStepTold(t, p, done, rs, deleted, mid, cfg, s);
  }

  lemma PlatformStepTold(t: Json, p: Json, done: seq<string>, rs: seq<string>, deleted: seq<string>, mid: Json,
                         cfg: Json,
                         s: string)
    requires NothingHidden(t, p, rs) && Completed(t, p, done, mid, cfg) && Told(t, p, done, deleted)
    requires PointerInto(s, p)
    ensures PassedOver(t, p, Dec(s), deleted) ==>
              Completed(t, p, done + [s], mid, cfg) && Told(t, p, done + [s], deleted)
    ensures Reported(t, p, Dec(s)) ==>
              Completed(t, p, done + [s], mid, cfg) && Told(t, p, done + [s], deleted + [s])
  {
    hide Enc, Dec, Get, Completed, Told, NothingHidden;
    var q := Dec(s);
    if Reported(t, p, q) {
      AnyPrefixGrows(deleted, s, s);
      NotKept(t, p, done, mid, cfg, s);
      TellPath(t, p, done, deleted, s, deleted + [s]);
    }
    if PassedOver(t, p, q, deleted) {
      if Kept(t, p, q) { KeptNotSkipped(t, p, done, deleted, rs, q); }
      NotKept(t, p, done, mid, cfg, s);
      TellPath(t, p, done, deleted, s, deleted);
    }
  }

  lemma {:induction false} EmptyIsNotReported(t: Json, p: Json, q: Position)
    requires Has(p, q) && EmptyCollection(Get(p, q).value)
    ensures !NeedsCover(t, p, q)
  {
  }

  /** The pointer of an empty collection that only the platform has, but that the template cannot take over. */
  predicate Unkeepable(t: Json, p: Json, path: string) {
    path == Enc(Dec(path)) && Kept(t, p, Dec(path)) && !HoldsObject(t, Parent(Dec(path)))
  }

  /** An empty collection that only the platform has and that is not skipped: the loop sets it. */
  lemma {:induction false} PlatformPathKept(t: Json, p: Json, tPaths: seq<string>, pPaths: seq<string>, i: nat,
                                            rs: seq<string>,
                                            deleted: seq<string>, mid: Json, cfg: Json)
    requires i < |pPaths| && BeforePlatformPath(t, p, tPaths, pPaths, i, rs, deleted, mid, cfg)
    requires Has(p, Dec(pPaths[i])) && EmptyCollection(Get(p, Dec(pPaths[i])).value)
    requires !Has(t, Dec(pPaths[i])) && !AnyPrefix(deleted, pPaths[i])
    ensures var edited := Set(cfg, Dec(pPaths[i]), Get(p, Dec(pPaths[i])).value);
            if edited.Some? then BeforePlatformPath(t, p, tPaths, pPaths, i + 1, rs, deleted, mid, edited.value)
            else Unkeepable(t, p, pPaths[i])
  {
    hide Enc, Dec, Get, Set, Completed, Told, NothingHidden, IsWalk, Edited, PlainAnnotations, EmptyCollection,
      NeedsCover;
    var s, done := pPaths[i], pPaths[..i];
    PlatformPointer(p, pPaths, i);
    assert pPaths[..i + 1] == done + [s];
    var q := Dec(s);
    var v := Get(p, q).value;
    NotSkippedKept(t, p, done, deleted, q);
    KeepPath(t, p, tPaths, done, mid, cfg, s, v);
    if Set(cfg, q, v).Some? {
      assert !NeedsCover(t, p, q) by { EmptyIsNotReported(t, p, q); }
      TellPath(t, p, done, deleted, s, deleted);
    }
  }

  // ---- both loops together ----

  /** When the first loop runs to the end, nothing is mismatched and every dropped path was a member. */
  lemma FirstLoopTold(t: Json, p: Json, kind: string, tPaths: seq<string>, rs: seq<string>, added: seq<string>,
                      compared: set<string>)
    requires Comparable(t, p, tPaths, rs) && Noted(t, p, kind, tPaths, added, compared)
    ensures DropsMembersOnly(t, p) && !AnyMismatch(kind, t, p)
  {
    hide Enc, Dec, Get, ImmutableFields;
    forall q: Position ensures Dec(Enc(q)) == q { DecEnc(q); }
    forall q | Dropped(t, p, q) ensures HoldsObject(t, Parent(q)) { assert Enc(q) in tPaths; }
    forall q ensures !Mismatch(kind, t, p, q) {
      if q != [] && Has(t, q) { assert Enc(q) in tPaths; }
    }
  }

  /** When both loops run to the end, the template's document has become the merge of the two documents,
      nothing is mismatched, and every edit was of an object member. */
  lemma {:induction false} LoopsAmountToMerge(t: Json, p: Json, kind: string, rs: seq<string>, tPaths: seq<string>,
                                              pPaths: seq<string>, added: seq<string>, compared: set<string>,
                                              deleted: seq<string>, mid: Json, cfg: Json)
    requires Comparable(t, p, tPaths, rs) && IsWalk(pPaths, p)
    requires Edited(t, p, tPaths, mid) && Noted(t, p, kind, tPaths, added, compared)
    requires Completed(t, p, pPaths, mid, cfg) && Told(t, p, pPaths, deleted)
    ensures DropsMembersOnly(t, p) && KeepsMembersOnly(t, p) && !AnyMismatch(kind, t, p)
    ensures cfg == Merge(t, p)
  {
    hide Enc, Dec, Get, Merge, IsWalk;
    WalkIsExact(pPaths, p);
    FirstLoopTold(t, p, kind, tPaths, rs, added, compared);
    forall q: Position ensures Dec(Enc(q)) == q { DecEnc(q); }
    forall q | Kept(t, p, q) ensures HoldsObject(t, Parent(q)) { assert Enc(q) in pPaths; }
    forall q ensures LabelAt(cfg, q) == LabelAt(Merge(t, p), q) {
      MergeLabels(t, p, q);
      if q != [] && Has(t, q) { assert Enc(q) in tPaths; }
      if q != [] && Has(p, q) { assert Enc(q) in pPaths; }
    }
    SameLabels(cfg, Merge(t, p));
  }

  /** The template's document as a recreation finds it, in the middle of the first loop: some of the
      empty strings that the platform lacks may be gone, but none at an immutable field. */
  ghost predicate PartlyEdited(kind: string, t: Json, p: Json, d: Json) {
    forall q :: LabelAt(d, q) == LabelAt(t, q) ||
                (LabelAt(d, q) == None && Dropped(t, p, q) && HoldsObject(t, Parent(q)) && !Mismatch(kind, t, p, q))
  }

  lemma StoppedMidway(t: Json, p: Json, kind: string, done: seq<string>, added: seq<string>, compared: set<string>,
                      d: Json)
    requires Edited(t, p, done, d) && Noted(t, p, kind, done, added, compared)
    ensures PartlyEdited(kind, t, p, d)
  {
    hide Enc, Dec, Get, Mismatch, Added;
    forall q: Position ensures Dec(Enc(q)) == q { DecEnc(q); }
  }
}
