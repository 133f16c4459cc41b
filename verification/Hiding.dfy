/** What the raw prefix test of the template's path loop does in general: exactly which paths it passes over,
    and therefore exactly when an empty string is not dropped, or a mismatch at an immutable field not found. */
module Hiding {
  import opened Wrappers
  import opened Text
  import opened Documents
  import opened Pointers
  import opened Merging
  import opened Walking
  import opened Preparing
  import opened Platform
  import opened Comparison
  import opened Loops
  import opened Changes

  /** The path is one that only the template has, and no preserved path is a string prefix of it. */
  predicate Adds(t: Json, p: Json, rs: seq<string>, path: string) {
    !AnyPrefix(rs, path) && Added(t, p, Dec(path))
  }

  /** Some path before the i-th that the template adds, and that is not preserved, is a string prefix of s. */
  predicate AddedBefore(t: Json, p: Json, rs: seq<string>, paths: seq<string>, i: nat, s: string)
    requires i <= |paths|
  {
    exists m :: 0 <= m < i && Adds(t, p, rs, paths[m]) && paths[m] <= s
  }

  /** The loop passes over the k-th path. */
  predicate PassedBy(t: Json, p: Json, rs: seq<string>, paths: seq<string>, k: nat)
    requires k < |paths|
  {
    AddedBefore(t, p, rs, paths, k, paths[k])
  }

  /** The loop leaves the k-th path alone: it passes over it, or a preserved path is a string prefix of it. */
  predicate LeftAlone(t: Json, p: Json, rs: seq<string>, paths: seq<string>, k: nat)
    requires k < |paths|
  {
    PassedBy(t, p, rs, paths, k) || AnyPrefix(rs, paths[k])
  }

  /** One of the first n paths is q, and is dropped. */
  ghost predicate DroppedAmong(t: Json, p: Json, rs: seq<string>, paths: seq<string>, n: nat, q: Position)
    requires n <= |paths|
  {
    exists k :: 0 <= k < n && paths[k] == Enc(q) && Dropped(t, p, q) && !LeftAlone(t, p, rs, paths, k)
  }

  /** One of the first n paths is an immutable field at which template and platform differ, and is not left alone. */
  ghost predicate MismatchAmong(kind: string, t: Json, p: Json, rs: seq<string>, paths: seq<string>, n: nat)
    requires n <= |paths|
  {
    exists k :: 0 <= k < n && Mismatch(kind, t, p, Dec(paths[k])) && !LeftAlone(t, p, rs, paths, k)
  }

  /** x is one of the first n paths, and not passed over. */
  predicate SeenAmong(t: Json, p: Json, rs: seq<string>, paths: seq<string>, n: nat, x: string)
    requires n <= |paths|
  {
    exists k :: 0 <= k < n && paths[k] == x && !PassedBy(t, p, rs, paths, k)
  }

  ghost predicate AddedAre(t: Json, p: Json, rs: seq<string>, paths: seq<string>, n: nat, added: seq<string>)
    requires n <= |paths|
  {
    forall x :: AnyPrefix(added, x) <==> AddedBefore(t, p, rs, paths, n, x)
  }

  ghost predicate SeenAre(t: Json, p: Json, rs: seq<string>, paths: seq<string>, n: nat, compared: set<string>)
    requires n <= |paths|
  {
    forall x :: x in compared <==> SeenAmong(t, p, rs, paths, n, x)
  }

  ghost predicate DropsAre(t: Json, p: Json, rs: seq<string>, paths: seq<string>, n: nat, config: Json)
    requires n <= |paths|
  {
    forall q :: LabelAt(config, q) == if DroppedAmong(t, p, rs, paths, n, q) then None else LabelAt(t, q)
  }

  /** What the loop has done with the first n paths. */
  ghost predicate After(t: Json, p: Json, rs: seq<string>, paths: seq<string>, n: nat, s: Progress)
    requires n <= |paths|
  {
    s.Going? && AddedAre(t, p, rs, paths, n, s.added) && SeenAre(t, p, rs, paths, n, s.compared) &&
    DropsAre(t, p, rs, paths, n, s.config)
  }

  /** The template adds the position x, and it is not preserved. */
  predicate AddsAt(t: Json, p: Json, rs: seq<string>, x: Position) {
    Added(t, p, x) && !AnyPrefix(rs, Enc(x))
  }

  /** The pointer of some other position that the template adds is a string prefix of the pointer of w. */
  ghost predicate HiddenBySome(t: Json, p: Json, rs: seq<string>, w: Position) {
    exists x :: AddsAt(t, p, rs, x) && x != w && Enc(x) <= Enc(w)
  }

  /** Above a position whose parent the platform lacks, something is added. */
  lemma AddedAbove(t: Json, p: Json, q: Position) returns (n: nat)
    requires q != [] && Has(t, q) && !Has(p, Parent(q))
    ensures 0 < n < |q| && Added(t, p, q[..n])
  {
    hide Get;
    var up := Parent(q);
    GetPrefix(t, up, q);
    FirstMissing(t, p, up);
    n :| 0 < n <= |up| && OnlyIn(t, p, up[..n]);
    assert up[..n] == q[..n];
    NotAString(t, q[..n], q);
  }

  lemma NotAString(t: Json, up: Position, q: Position)
    requires up < q && Has(t, q)
    ensures Get(t, up) != Some(Str(""))
  {
    GetPrefix(t, up, q);
  }

  /** A path that is not left alone has its parent on the platform. */
  lemma ParentThere(t: Json, p: Json, rs: seq<string>, paths: seq<string>, n: nat)
    requires Lists(paths, t, p, rs) && n < |paths|
    ensures LeftAlone(t, p, rs, paths, n) || Has(p, Parent(Dec(paths[n])))
  {
    hide Get, Enc, Dec, Added;
    if !AnyPrefix(rs, paths[n]) {
      var q := Dec(paths[n]);
      assert ListsPath(paths[n], t, p, rs);
      if !Has(p, Parent(q)) {
        var m := AddedAbove(t, p, q);
        EncPrefixOfDescendant(q[..m], q);
        DecEnc(q[..m]);
        assert AncestorsIn(q, [], paths[..n]) && Enc(q[..m]) in paths[..n];
        if AnyPrefix(rs, Enc(q[..m])) { AnyPrefixDown(rs, Enc(q[..m]), paths[n]); }
      }
    }
  }

  /** One more path. */
  lemma AddedBeforeNext(t: Json, p: Json, rs: seq<string>, paths: seq<string>, n: nat, x: string)
    requires n < |paths|
    ensures AddedBefore(t, p, rs, paths, n + 1, x) <==>
            AddedBefore(t, p, rs, paths, n, x) || (Adds(t, p, rs, paths[n]) && paths[n] <= x)
  {
    hide Adds;
  }

  lemma PrefixIsTransitive(t: Json, p: Json, rs: seq<string>, paths: seq<string>, n: nat, x: string)
    requires n < |paths| && PassedBy(t, p, rs, paths, n) && paths[n] <= x
    ensures AddedBefore(t, p, rs, paths, n, x)
  {
    hide Adds;
    var m :| 0 <= m < n && Adds(t, p, rs, paths[m]) && paths[m] <= paths[n];
    assert paths[m] <= x;
  }

  lemma DroppedNext(t: Json, p: Json, rs: seq<string>, paths: seq<string>, n: nat, q: Position)
    requires n < |paths|
    ensures DroppedAmong(t, p, rs, paths, n + 1, q) <==>
            || DroppedAmong(t, p, rs, paths, n, q)
            || (paths[n] == Enc(q) && Dropped(t, p, q) && !LeftAlone(t, p, rs, paths, n))
  {
    hide LeftAlone;
  }

  lemma SeenNext(t: Json, p: Json, rs: seq<string>, paths: seq<string>, n: nat, x: string)
    requires n < |paths|
    ensures SeenAmong(t, p, rs, paths, n + 1, x) <==>
            SeenAmong(t, p, rs, paths, n, x) || (paths[n] == x && !PassedBy(t, p, rs, paths, n))
  {
    hide PassedBy;
  }

  /** A path that is passed over changes nothing. */
  lemma AfterPassedBy(t: Json, p: Json, rs: seq<string>, paths: seq<string>, n: nat, s: Progress)
    requires n < |paths| && After(t, p, rs, paths, n, s) && PassedBy(t, p, rs, paths, n)
    ensures After(t, p, rs, paths, n + 1, s)
  {
    hide PassedBy, DroppedAmong, AddedBefore, SeenAmong;
    forall x { SeenNext(t, p, rs, paths, n, x); }
    forall x ensures AnyPrefix(s.added, x) <==> AddedBefore(t, p, rs, paths, n + 1, x) {
      AddedBeforeNext(t, p, rs, paths, n, x);
      if paths[n] <= x { PrefixIsTransitive(t, p, rs, paths, n, x); }
    }
    forall q { DroppedNext(t, p, rs, paths, n, q); }
  }

  lemma SeenOneMore(t: Json, p: Json, rs: seq<string>, paths: seq<string>, n: nat, compared: set<string>)
    requires n < |paths| && SeenAre(t, p, rs, paths, n, compared) && !PassedBy(t, p, rs, paths, n)
    ensures SeenAre(t, p, rs, paths, n + 1, compared + {paths[n]})
  {
    hide PassedBy, SeenAmong;
    forall x
      ensures x in compared + {paths[n]} <==> SeenAmong(t, p, rs, paths, n + 1, x)
    {
      SeenNext(t, p, rs, paths, n, x);
    }
  }

  lemma NoMoreAdded(t: Json, p: Json, rs: seq<string>, paths: seq<string>, n: nat, added: seq<string>)
    requires n < |paths| && AddedAre(t, p, rs, paths, n, added) && !Adds(t, p, rs, paths[n])
    ensures AddedAre(t, p, rs, paths, n + 1, added)
  {
    hide AddedBefore, AnyPrefix, Adds;
    forall x
      ensures AnyPrefix(added, x) <==> AddedBefore(t, p, rs, paths, n + 1, x)
    {
      AddedBeforeNext(t, p, rs, paths, n, x);
    }
  }

  lemma NoMoreDropped(t: Json, p: Json, rs: seq<string>, paths: seq<string>, n: nat, config: Json)
    requires n < |paths| && DropsAre(t, p, rs, paths, n, config)
    requires AnyPrefix(rs, paths[n]) || !Dropped(t, p, Dec(paths[n]))
    ensures DropsAre(t, p, rs, paths, n + 1, config)
  {
    hide PassedBy, DroppedAmong, AnyPrefix;
    forall q ensures DroppedAmong(t, p, rs, paths, n + 1, q) <==> DroppedAmong(t, p, rs, paths, n, q) {
      DroppedNext(t, p, rs, paths, n, q);
      DecEnc(q);
    }
  }

  /** A path that is preserved, or neither dropped nor added, changes nothing. */
  lemma AfterCompared(t: Json, p: Json, rs: seq<string>, paths: seq<string>, n: nat, s: Progress)
    requires n < |paths| && After(t, p, rs, paths, n, s) && !PassedBy(t, p, rs, paths, n)
    requires AnyPrefix(rs, paths[n]) || (!Added(t, p, Dec(paths[n])) && !Dropped(t, p, Dec(paths[n])))
    ensures After(t, p, rs, paths, n + 1, s.(compared := s.compared + {paths[n]}))
  {
    hide PassedBy, AddedAre, SeenAre, DropsAre, AnyPrefix;
    SeenOneMore(t, p, rs, paths, n, s.compared);
    NoMoreAdded(t, p, rs, paths, n, s.added);
    NoMoreDropped(t, p, rs, paths, n, s.config);
  }

  lemma AfterAdded(t: Json, p: Json, rs: seq<string>, paths: seq<string>, n: nat, s: Progress)
    requires n < |paths| && After(t, p, rs, paths, n, s) && Adds(t, p, rs, paths[n]) && !PassedBy(t, p, rs, paths, n)
    ensures After(t, p, rs, paths, n + 1, Going(s.config, s.compared + {paths[n]}, s.added + [paths[n]]))
  {
    hide PassedBy, AddedBefore, AnyPrefix, SeenAre, DropsAre;
    SeenOneMore(t, p, rs, paths, n, s.compared);
    forall x ensures AnyPrefix(s.added + [paths[n]], x) <==> AddedBefore(t, p, rs, paths, n + 1, x) {
      AddedBeforeNext(t, p, rs, paths, n, x);
      AnyPrefixGrows(s.added, paths[n], x);
    }
    NoMoreDropped(t, p, rs, paths, n, s.config);
  }

  /** Dropping an empty string. */
  lemma AfterDropped(t: Json, p: Json, rs: seq<string>, paths: seq<string>, n: nat, s: Progress)
    requires Lists(paths, t, p, rs) && n < |paths| && After(t, p, rs, paths, n, s) && !LeftAlone(t, p, rs, paths, n)
    requires Dropped(t, p, Dec(paths[n])) && HoldsObject(t, Parent(Dec(paths[n])))
    ensures Documents.Delete(s.config, Dec(paths[n])).Some?
    ensures After(t, p, rs, paths, n + 1,
                  Going(Documents.Delete(s.config, Dec(paths[n])).value, s.compared + {paths[n]}, s.added))
  {
    hide PassedBy, AddedAre, SeenAre, DroppedAmong, Lists, Enc, Dec, Added, AnyPrefix, DropsAre;
    NotAdded(t, p, Dec(paths[n]));
    SeenOneMore(t, p, rs, paths, n, s.compared);
    NoMoreAdded(t, p, rs, paths, n, s.added);
    DropOne(t, p, rs, paths, n, s.config);
  }

  lemma NotAdded(t: Json, p: Json, q: Position)
    ensures Dropped(t, p, q) ==> !Added(t, p, q)
  {
  }

  lemma DropOne(t: Json, p: Json, rs: seq<string>, paths: seq<string>, n: nat, config: Json)
    requires Lists(paths, t, p, rs) && n < |paths| && DropsAre(t, p, rs, paths, n, config)
    requires !LeftAlone(t, p, rs, paths, n)
    requires Dropped(t, p, Dec(paths[n])) && HoldsObject(t, Parent(Dec(paths[n])))
    ensures Documents.Delete(config, Dec(paths[n])).Some?
    ensures DropsAre(t, p, rs, paths, n + 1, Documents.Delete(config, Dec(paths[n])).value)
  {
    hide PassedBy, Lists, Enc, Dec, DroppedAmong;
    var at := Dec(paths[n]);
    NotYetDropped(t, p, rs, paths, n);
    GetLast(t, at);
    assert !Dropped(t, p, Parent(at)) &&
           !DroppedAmong(t, p, rs, paths, n, Parent(at)) by { NeverDropped(t, p, rs, paths, n, Parent(at)); }
    assert LabelAt(config, at) == LabelAt(t, at) && LabelAt(config, Parent(at)) == LabelAt(t, Parent(at));
    DeleteEffect(config, at);
    var edited := Documents.Delete(config, at).value;
    forall q ensures LabelAt(edited, q) == if DroppedAmong(t, p, rs, paths, n + 1, q) then None else LabelAt(t, q) {
      DroppedNext(t, p, rs, paths, n, q);
      DecEnc(q);
      if at < q { BelowString(t, at, q); }
      PrefixCases(at, q);
    }
  }

  lemma NeverDropped(t: Json, p: Json, rs: seq<string>, paths: seq<string>, n: nat, q: Position)
    requires n <= |paths|
    ensures DroppedAmong(t, p, rs, paths, n, q) ==> Dropped(t, p, q)
    ensures HoldsObject(t, q) ==> !Dropped(t, p, q)
  {
  }

  lemma NotYetDropped(t: Json, p: Json, rs: seq<string>, paths: seq<string>, n: nat)
    requires Lists(paths, t, p, rs) && n < |paths|
    ensures paths[n] == Enc(Dec(paths[n])) && Dec(paths[n]) != []
    ensures Has(t, Dec(paths[n])) || (AnyPrefix(rs, paths[n]) && !Has(p, Dec(paths[n])))
    ensures !AnyPrefix(rs, paths[n]) ==> !DroppedAmong(t, p, rs, paths, n, Dec(paths[n]))
  {
    hide AnyPrefix, PassedBy, Enc, Dec;
    assert ListsPath(paths[n], t, p, rs);
  }

  /** One step of the loop. */
  lemma StepExact(kind: string, t: Json, p: Json, rs: seq<string>, paths: seq<string>, n: nat, s: Progress)
    requires Lists(paths, t, p, rs) && n < |paths| && After(t, p, rs, paths, n, s) && DropsMembersOnly(t, p)
    ensures var next := TemplateStep(kind, p, rs, s, paths[n]);
            if Mismatch(kind, t, p, Dec(paths[n])) && !LeftAlone(t, p, rs, paths, n) then next.Mismatched?
            else After(t, p, rs, paths, n + 1, next)
  {
    hide Lists, AddedBefore, After, Mismatch, Added, Dropped, Enc, Dec, Get, DropsMembersOnly, Documents.Delete;
    var path := paths[n];
    PassedByMeans(t, p, rs, paths, n, s);
    if PassedBy(t, p, rs, paths, n) {
      AfterPassedBy(t, p, rs, paths, n, s);
    } else if AnyPrefix(rs, path) {
      AfterCompared(t, p, rs, paths, n, s);
    } else {
      NotYetDropped(t, p, rs, paths, n);
      ParentThere(t, p, rs, paths, n);
      TemplateCases(t, p, kind, path, s.config);
      if Dropped(t, p, Dec(path)) {
        DropsFromObjects(t, p, Dec(path));
        AfterDropped(t, p, rs, paths, n, s);
      } else if Added(t, p, Dec(path)) {
        AfterAdded(t, p, rs, paths, n, s);
      } else {
        AfterCompared(t, p, rs, paths, n, s);
      }
    }
  }

  lemma DropsFromObjects(t: Json, p: Json, q: Position)
    requires DropsMembersOnly(t, p) && Dropped(t, p, q)
    ensures HoldsObject(t, Parent(q))
  {
  }

  lemma PassedByMeans(t: Json, p: Json, rs: seq<string>, paths: seq<string>, n: nat, s: Progress)
    requires n < |paths| && After(t, p, rs, paths, n, s)
    ensures s.Going? && (AnyPrefix(s.added, paths[n]) <==> PassedBy(t, p, rs, paths, n))
    ensures Lists(paths, t, p, rs) && !AnyPrefix(rs, paths[n]) ==>
              LabelAt(s.config, Dec(paths[n])) == LabelAt(t, Dec(paths[n]))
  {
    hide AddedBefore, Lists, AnyPrefix;
    if Lists(paths, t, p, rs) { NotYetDropped(t, p, rs, paths, n); }
  }

  lemma MismatchNext(kind: string, t: Json, p: Json, rs: seq<string>, paths: seq<string>, n: nat)
    requires n < |paths|
    ensures MismatchAmong(kind, t, p, rs, paths, n + 1) <==>
            || MismatchAmong(kind, t, p, rs, paths, n)
            || (Mismatch(kind, t, p, Dec(paths[n])) && !LeftAlone(t, p, rs, paths, n))
  {
    hide LeftAlone;
  }

  lemma BeforeFirst(t: Json, p: Json, rs: seq<string>, paths: seq<string>)
    ensures After(t, p, rs, paths, 0, Going(t, {}, []))
  {
  }

  /** The whole loop, whatever the order of the paths: it stops at an immutable field exactly when one of its
      paths is a mismatch that is not passed over. */
  lemma {:induction false} LoopExact(kind: string, t: Json, p: Json, rs: seq<string>, paths: seq<string>, n: nat)
    requires Lists(paths, t, p, rs) && n <= |paths| && DropsMembersOnly(t, p)
    ensures var s := TemplateLoop(kind, t, p, rs, paths[..n]);
            if MismatchAmong(kind, t, p, rs, paths, n) then s.Mismatched? else After(t, p, rs, paths, n, s)
  {
    hide Lists, After, Mismatch, PassedBy, MismatchAmong, DropsMembersOnly, TemplateLoop, TemplateStep;
    if n == 0 {
      NothingLooped(kind, t, p, rs, paths);
      BeforeFirst(t, p, rs, paths);
      NoMismatchYet(kind, t, p, rs, paths);
    } else {
      LoopExact(kind, t, p, rs, paths, n - 1);
      MismatchNext(kind, t, p, rs, paths, n - 1);
      var s := TemplateLoop(kind, t, p, rs, paths[..n - 1]);
      if MismatchAmong(kind, t, p, rs, paths, n - 1) {
        assert paths[..n][..n - 1] == paths[..n - 1];
        TemplateLoopStops(kind, t, p, rs, paths[..n], n - 1);
      } else {
        AfterIsGoing(t, p, rs, paths, n - 1, s);
        TemplateLoopNext(kind, t, p, rs, paths, n - 1);
        StepExact(kind, t, p, rs, paths, n - 1, s);
      }
    }
  }

  lemma NoMismatchYet(kind: string, t: Json, p: Json, rs: seq<string>, paths: seq<string>)
    ensures !MismatchAmong(kind, t, p, rs, paths, 0)
  {
  }

  lemma AfterIsGoing(t: Json, p: Json, rs: seq<string>, paths: seq<string>, n: nat, s: Progress)
    requires n <= |paths| && After(t, p, rs, paths, n, s)
    ensures s.Going?
  {
  }

  /** A mismatch at an immutable field stops the comparison exactly when it is not left alone. */
  lemma MismatchFoundUnlessLeftAlone(kind: string, t: Json, p: Json, rs: seq<string>, paths: seq<string>)
    requires Lists(paths, t, p, rs) && DropsMembersOnly(t, p)
    ensures TemplateLoop(kind, t, p, rs, paths).Mismatched? <==> MismatchAmong(kind, t, p, rs, paths, |paths|)
    ensures TemplateLoop(kind, t, p, rs, paths).Going? <==> !MismatchAmong(kind, t, p, rs, paths, |paths|)
  {
    hide Lists, MismatchAmong, DropsMembersOnly, TemplateLoop;
    LoopExact(kind, t, p, rs, paths, |paths|);
    assert paths[..|paths|] == paths;
    if !MismatchAmong(kind, t, p, rs, paths, |paths|) {
      AfterIsGoing(t, p, rs, paths, |paths|, TemplateLoop(kind, t, p, rs, paths));
    }
  }

  /** When the loop comes to its end, all that is to be dropped is dropped exactly when no dropped path is
      left alone. */
  lemma DropsUnlessLeftAlone(kind: string, t: Json, p: Json, rs: seq<string>, paths: seq<string>)
    requires Lists(paths, t, p, rs) && DropsMembersOnly(t, p)
    requires TemplateLoop(kind, t, p, rs, paths).Going?
    ensures Edited(t, p, paths, TemplateLoop(kind, t, p, rs, paths).config) <==>
            forall k :: 0 <= k < |paths| && Dropped(t, p, Dec(paths[k])) ==> !LeftAlone(t, p, rs, paths, k)
  {
    hide TemplateLoop, LeftAlone, Lists, DropsMembersOnly, Enc, Dec, Dropped, DroppedAmong, AddedAre, SeenAre;
    MismatchFoundUnlessLeftAlone(kind, t, p, rs, paths);
    LoopExact(kind, t, p, rs, paths, |paths|);
    assert paths[..|paths|] == paths;
    forall k | 0 <= k < |paths| && Dropped(t, p, Dec(paths[k]))
      ensures DroppedAmong(t, p, rs, paths, |paths|, Dec(paths[k])) <==> !LeftAlone(t, p, rs, paths, k)
      ensures Dec(paths[k]) != [] && Enc(Dec(paths[k])) in paths && Has(t, Dec(paths[k]))
    {
      NotYetDropped(t, p, rs, paths, k);
      DroppedIff(t, p, rs, paths, k);
      DroppedIsThere(t, p, Dec(paths[k]));
    }
    forall q | Dropped(t, p, q) ensures q != [] && exists k :: 0 <= k < |paths| && Dec(paths[k]) == q {
      DroppedIsThere(t, p, q);
      var k := IndexIn(t, p, rs, paths, q);
    }
    forall q ensures DroppedAmong(t, p, rs, paths, |paths|, q) ==> Dropped(t, p, q) {
      NeverDropped(t, p, rs, paths, |paths|, q);
    }
  }

  lemma DroppedIsThere(t: Json, p: Json, q: Position)
    requires Dropped(t, p, q)
    ensures q != [] && Has(t, q)
  {
  }

  lemma DroppedIff(t: Json, p: Json, rs: seq<string>, paths: seq<string>, k: nat)
    requires Lists(paths, t, p, rs) && k < |paths| && Dropped(t, p, Dec(paths[k]))
    ensures DroppedAmong(t, p, rs, paths, |paths|, Dec(paths[k])) <==> !LeftAlone(t, p, rs, paths, k)
  {
    hide PassedBy, Enc, Dec, AnyPrefix;
    assert ListsPath(paths[k], t, p, rs);
    OnceOnly(t, p, rs, paths, k);
  }

  /** Where a position that the template has stands in the list. */
  lemma IndexIn(t: Json, p: Json, rs: seq<string>, paths: seq<string>, q: Position) returns (k: nat)
    requires Lists(paths, t, p, rs) && q != [] && Has(t, q)
    ensures k < |paths| && paths[k] == Enc(q) && Dec(paths[k]) == q
  {
    DecEnc(q);
    k :| 0 <= k < |paths| && paths[k] == Enc(q);
  }

  lemma OnceOnly(t: Json, p: Json, rs: seq<string>, paths: seq<string>, k: nat)
    requires Lists(paths, t, p, rs) && k < |paths|
    ensures AnyPrefix(rs, paths[k]) || forall m :: 0 <= m < |paths| && paths[m] == paths[k] ==> m == k
  {
    hide AnyPrefix;
  }
}
