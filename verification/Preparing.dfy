/** What happens to a template and a platform document before they are compared
    (pkg/openshift/item.go), on values: preserved paths, the apiVersion fix, unmanaged annotations. */
module Preparing {
  import opened Wrappers
  import opened Text
  import opened Documents
  import opened Pointers
  import opened Merging
  import opened Walking

  const ANNOTATIONS: Position := ["metadata", "annotations"]
  const API_VERSION: Position := ["apiVersion"]

  // ---- preserved paths ----

  /** Copies one preserved position from the platform into the template, or removes it from the template
      when the platform lacks it. A failing Set or Delete leaves the template as it is. */
  function Preserve(t: Json, p: Json, r: Position): Json {
    var edited := if Has(p, r) then Set(t, r, Get(p, r).value) else Delete(t, r);
    if edited.Some? then edited.value else t
  }

  function PreserveAll(t: Json, p: Json, rs: seq<string>): Json {
    if rs == [] then t
    else Preserve(PreserveAll(t, p, rs[..|rs| - 1]), p, Dec(rs[|rs| - 1]))
  }

  /** A preserve argument that is a pointer to something below the root. */
  predicate ProperPointer(r: string) {
    r == Enc(Dec(r)) && Dec(r) != []
  }

  /** The preserved position is an element of a list of the template which the platform does not have:
      what removing it does to the list is decided by the pointer library and is not modelled. */
  predicate RemovesElement(t: Json, p: Json, r: Position) {
    r != [] && Has(t, r) && !Has(p, r) && !HoldsObject(t, Parent(r))
  }

  /** The template has at r what the platform has there, or nothing. */
  predicate Agree(t: Json, p: Json, r: Position) {
    !Has(t, r) || Get(t, r) == Get(p, r)
  }

  ghost predicate Preservable(t: Json, p: Json, rs: seq<string>) {
    forall i :: 0 <= i < |rs| ==> ProperPointer(rs[i]) && !RemovesElement(t, p, Dec(rs[i]))
  }

  ghost predicate AgreeAll(t: Json, p: Json, rs: seq<string>) {
    forall i :: 0 <= i < |rs| ==> Agree(t, p, Dec(rs[i]))
  }

  /** q is neither a preserved position nor below one. */
  ghost predicate Unpreserved(q: Position, rs: seq<string>) {
    forall i :: 0 <= i < |rs| ==> !(Dec(rs[i]) <= q)
  }

  lemma {:induction false} SameBelow(a: Json, b: Json, q: Position)
    requires forall s :: LabelAt(a, q + s) == LabelAt(b, q + s)
    ensures Get(a, q) == Get(b, q)
  {
    assert q + [] == q;
    assert LabelAt(a, q + []) == LabelAt(b, q + []);
    if Has(a, q) {
      forall s ensures LabelAt(Get(a, q).value, s) == LabelAt(Get(b, q).value, s) {
        GetConcat(a, q, s);
        GetConcat(b, q, s);
        assert LabelAt(a, q + s) == LabelAt(b, q + s);
      }
      SameLabels(Get(a, q).value, Get(b, q).value);
    }
  }

  lemma {:induction false} GetAfterSet(j: Json, p: Position, v: Json)
    requires p != [] && Set(j, p, v).Some?
    ensures Get(Set(j, p, v).value, p) == Some(v)
  {
    SetEffect(j, p, v);
    var j' := Set(j, p, v).value;
    assert p[|p|..] == [];
    assert LabelAt(j', p) == LabelAt(v, []);
    forall s ensures LabelAt(Get(j', p).value, s) == LabelAt(v, s) {
      GetConcat(j', p, s);
      assert (p + s)[|p|..] == s;
    }
    SameLabels(Get(j', p).value, v);
  }

  /** Effect of one preservation step on the labels. */
  lemma PreserveEffect(t: Json, p: Json, r: Position)
    requires r != [] && !RemovesElement(t, p, r)
    ensures Agree(Preserve(t, p, r), p, r)
    ensures forall q :: !(r <= q) ==> LabelAt(Preserve(t, p, r), q) == LabelAt(t, q)
  {
    GetLast(t, r);
    if Has(p, r) {
      SetEffect(t, r, Get(p, r).value);
      if Set(t, r, Get(p, r).value).Some? {
        GetAfterSet(t, r, Get(p, r).value);
      }
    } else {
      DeleteEffect(t, r);
      if Delete(t, r).Some? { assert LabelAt(Delete(t, r).value, r) == None; }
    }
  }

  lemma {:induction false} PreserveNothing(t: Json, p: Json, r: Position)
    requires r != [] && Get(t, r) == Get(p, r)
    ensures Preserve(t, p, r) == t
  {
    GetLast(t, r);
    if Has(p, r) {
      SetEffect(t, r, Get(p, r).value);
      forall q ensures LabelAt(Preserve(t, p, r), q) == LabelAt(t, q) {
        if r <= q {
          assert q == r + q[|r|..];
          GetConcat(t, r, q[|r|..]);
        }
      }
      SameLabels(Preserve(t, p, r), t);
    } else {
      DeleteEffect(t, r);
    }
  }

  lemma PreserveBelowNothing(t: Json, p: Json, r: Position, r': Position)
    requires r < r' && !Has(t, r)
    ensures Preserve(t, p, r') == t
  {
    GetLast(t, r');
    if Has(t, Parent(r')) { GetPrefix(t, r, Parent(r')); }
    SetEffect(t, r', if Has(p, r') then Get(p, r').value else Null);
    DeleteEffect(t, r');
  }

  /** A later preservation step keeps what an earlier one achieved, however the two positions relate. */
  lemma AgreeKept(t: Json, p: Json, r: Position, r': Position)
    requires r != [] && r' != [] && !RemovesElement(t, p, r') && Agree(t, p, r)
    ensures Agree(Preserve(t, p, r'), p, r)
  {
    PreserveEffect(t, p, r');
    var t' := Preserve(t, p, r');
    if r' <= r {
      assert r == r' + r[|r'|..];
      GetConcat(t', r', r[|r'|..]);
      GetConcat(p, r', r[|r'|..]);
    } else if r <= r' {
      assert r' == r + r'[|r|..];
      GetConcat(t, r, r'[|r|..]);
      GetConcat(p, r, r'[|r|..]);
      if Has(t, r) {
        PreserveNothing(t, p, r');
      } else {
        PreserveBelowNothing(t, p, r, r');
      }
    } else {
      forall s ensures LabelAt(t', r + s) == LabelAt(t, r + s) {
        if r' <= r + s { PrefixesOfOne(r, r', r + s); }
      }
      SameBelow(t', t, r);
    }
  }

  lemma PrefixesOfOne(a: Position, b: Position, c: Position)
    requires a <= c && b <= c
    ensures a <= b || b <= a
  {
    assert a == c[..|a|] && b == c[..|b|];
  }

  lemma {:induction false} SameBelowPrefix(t: Json, p: Json, r: Position, q: Position)
    requires r <= q && Agree(t, p, r) && Has(t, q)
    ensures Get(t, q) == Get(p, q)
  {
    assert q == r + q[|r|..];
    GetConcat(t, r, q[|r|..]);
    GetConcat(p, r, q[|r|..]);
  }

  lemma StillRemovesNothing(t: Json, t1: Json, p: Json, rs: seq<string>, r: Position)
    requires r != [] && !RemovesElement(t, p, r)
    requires AgreeAll(t1, p, rs)
    requires forall q :: Unpreserved(q, rs) ==> LabelAt(t1, q) == LabelAt(t, q)
    ensures !RemovesElement(t1, p, r)
  {
    if Unpreserved(r, rs) {
      assert Unpreserved(Parent(r), rs) by {
        forall i | 0 <= i < |rs| ensures !(Dec(rs[i]) <= Parent(r)) {
          assert !(Dec(rs[i]) <= r) && Parent(r) <= r;
        }
      }
    } else if Has(t1, r) {
      var i :| 0 <= i < |rs| && Dec(rs[i]) <= r;
      SameBelowPrefix(t1, p, Dec(rs[i]), r);
    }
  }

  /** After all preservation steps, for any list of paths, nested and overlapping ones included: the
      template agrees with the platform at each of them, and is unchanged everywhere else. */
  lemma {:induction false} PreserveAllEffect(t: Json, p: Json, rs: seq<string>)
    requires Preservable(t, p, rs)
    ensures AgreeAll(PreserveAll(t, p, rs), p, rs)
    ensures forall q :: Unpreserved(q, rs) ==> LabelAt(PreserveAll(t, p, rs), q) == LabelAt(t, q)
  {
    if rs != [] {
      var init, last := rs[..|rs| - 1], rs[|rs| - 1];
      assert rs == init + [last];
      PreserveAllEffect(t, p, init);
      PreserveAllStep(t, PreserveAll(t, p, init), p, init, last);
    }
  }

  lemma PreserveAllStep(t: Json, t1: Json, p: Json, rs: seq<string>, last: string)
    requires ProperPointer(last) && !RemovesElement(t, p, Dec(last))
    requires AllProper(rs)
    requires AgreeAll(t1, p, rs)
    requires forall q :: Unpreserved(q, rs) ==> LabelAt(t1, q) == LabelAt(t, q)
    ensures !RemovesElement(t1, p, Dec(last))
    ensures AgreeAll(Preserve(t1, p, Dec(last)), p, rs + [last])
    ensures forall q :: Unpreserved(q, rs + [last]) ==> LabelAt(Preserve(t1, p, Dec(last)), q) == LabelAt(t, q)
  {
    var r, all := Dec(last), rs + [last];
    StillRemovesNothing(t, t1, p, rs, r);
    PreserveEffect(t1, p, r);
    forall i | 0 <= i < |all| ensures Agree(Preserve(t1, p, r), p, Dec(all[i])) {
      if i < |rs| { AgreeKept(t1, p, Dec(rs[i]), r); }
    }
    forall q | Unpreserved(q, all) ensures LabelAt(Preserve(t1, p, r), q) == LabelAt(t, q) {
      assert forall i :: 0 <= i < |rs| ==> all[i] == rs[i];
      assert all[|rs|] == last;
    }
  }

  // ---- arguments that are no pointers ----

  /** Neither empty nor with a leading slash. */
  predicate NoPointer(r: string) {
    r != "" && r[0] != '/'
  }

  predicate NoPointers(rs: seq<string>) {
    forall i :: 0 <= i < |rs| ==> NoPointer(rs[i])
  }

  /** Such arguments act as the pointer to the whole document, and the empty path does, too: copying it changes
      nothing. */
  lemma {:induction false} RootPreservesNothing(t: Json, p: Json, rs: seq<string>)
    requires forall i :: 0 <= i < |rs| ==> NoPointer(rs[i]) || rs[i] == ""
    ensures PreserveAll(t, p, rs) == t
  {
    if rs != [] {
      RootPreservesNothing(t, p, rs[..|rs| - 1]);
      assert NoPointer(rs[|rs| - 1]) || rs[|rs| - 1] == "";
    }
  }

  /** And they are no prefix of any pointer. */
  lemma NoPointerIsNoPrefix(rs: seq<string>, s: string)
    requires NoPointers(rs)
    ensures AnyPrefix(rs, s) ==> NoPointer(s)
  {
    if AnyPrefix(rs, s) {
      var i :| 0 <= i < |rs| && rs[i] <= s;
      assert rs[i][0] == s[0];
    }
  }

  /** The empty path is a prefix of everything. */
  lemma EmptyIsPrefix(rs: seq<string>, s: string)
    requires "" in rs
    ensures AnyPrefix(rs, s)
  {
    var i :| 0 <= i < |rs| && rs[i] == "";
    assert rs[i] <= s;
  }

  /** The paths are pointers, as far as their first character tells. */
  predicate Slashed(paths: seq<string>) {
    forall i :: 0 <= i < |paths| ==> !NoPointer(paths[i])
  }

  /** The strings that are pointers, as far as their first character tells. */
  function PointersIn(s: seq<string>): seq<string> {
    if s == [] then []
    else
      var n := |s| - 1;
      PointersIn(s[..n]) + if NoPointer(s[n]) then [] else [s[n]]
  }

  lemma {:induction false} PointersInConcat(a: seq<string>, b: seq<string>)
    ensures PointersIn(a + b) == PointersIn(a) + PointersIn(b)
  {
    hide NoPointer;
    if b == [] {
      assert a + b == a;
    } else {
      var n := |b| - 1;
      assert (a + b)[..|a + b| - 1] == a + b[..n];
      PointersInConcat(a, b[..n]);
    }
  }

  lemma {:induction false} AllArePointers(s: seq<string>)
    requires Slashed(s)
    ensures PointersIn(s) == s
  {
    hide NoPointer;
    if s != [] {
      AllArePointers(s[..|s| - 1]);
      assert s == s[..|s| - 1] + [s[|s| - 1]];
    }
  }

  lemma {:induction false} NoneArePointers(s: seq<string>)
    requires NoPointers(s)
    ensures PointersIn(s) == []
  {
    hide NoPointer;
    if s != [] { NoneArePointers(s[..|s| - 1]); }
  }

  /** Arguments that are no pointers preserve nothing, whatever others there are. */
  lemma {:induction false} OnlyPointersPreserve(t: Json, p: Json, rs: seq<string>)
    ensures PreserveAll(t, p, PointersIn(rs)) == PreserveAll(t, p, rs)
  {
    hide Preserve, Dec;
    if rs != [] {
      var init, last := rs[..|rs| - 1], rs[|rs| - 1];
      OnlyPointersPreserve(t, p, init);
      if NoPointer(last) {
        PreserveRoot(PreserveAll(t, p, init), p, last);
        assert PointersIn(init) + [] == PointersIn(init);
      } else {
        PreserveNext(t, p, PointersIn(init), last);
      }
    }
  }

  lemma PreserveRoot(t: Json, p: Json, r: string)
    requires NoPointer(r) || r == ""
    ensures Preserve(t, p, Dec(r)) == t
  {
  }

  lemma PreserveNext(t: Json, p: Json, rs: seq<string>, r: string)
    ensures PreserveAll(t, p, rs + [r]) == Preserve(PreserveAll(t, p, rs), p, Dec(r))
  {
    hide Preserve, Dec;
    assert (rs + [r])[..|rs|] == rs;
  }

  // ---- the template's path list after preservation ----

  /** Every position of the template has its pointer in the list. A pointer that no preserve argument is
      a prefix of is listed once, after its ancestors, and is a position of the template; any other one
      is a position of the template or of neither side. */
  ghost predicate Lists(paths: seq<string>, t: Json, p: Json, rs: seq<string>) {
    && (forall i :: 0 <= i < |paths| ==> ListsPath(paths[i], t, p, rs))
    && (forall q :: q != [] && Has(t, q) ==> Enc(q) in paths)
    && (forall i, k :: 0 <= i < k < |paths| && paths[i] == paths[k] ==> AnyPrefix(rs, paths[i]))
    && (forall i :: 0 <= i < |paths| && !AnyPrefix(rs, paths[i]) ==> AncestorsIn(Dec(paths[i]), [], paths[..i]))
  }

  predicate ListsPath(s: string, t: Json, p: Json, rs: seq<string>) {
    s == Enc(Dec(s)) && Dec(s) != [] && (Has(t, Dec(s)) || (AnyPrefix(rs, s) && !Has(p, Dec(s))))
  }

  lemma WalkLists(paths: seq<string>, t: Json, p: Json)
    requires IsWalk(paths, t)
    ensures Lists(paths, t, p, [])
  {
    WalkIsExact(paths, t);
    assert forall i :: 0 <= i < |paths| ==> PointerInto(paths[i], t);
  }

  lemma AnyPrefixGrows(rs: seq<string>, r: string, s: string)
    ensures AnyPrefix(rs + [r], s) <==> AnyPrefix(rs, s) || r <= s
  {
    var all := rs + [r];
    if AnyPrefix(rs, s) {
      var i :| 0 <= i < |rs| && rs[i] <= s;
      assert all[i] <= s;
    }
    if r <= s { assert all[|rs|] <= s; }
  }

  /** Nothing changed: one more preserve argument only relaxes what is asked of the list. */
  lemma ListsMore(paths: seq<string>, t: Json, p: Json, rs: seq<string>, r: string)
    requires Lists(paths, t, p, rs)
    ensures Lists(paths, t, p, rs + [r])
  {
    forall s { AnyPrefixGrows(rs, r, s); }
  }

  /** What is listed below the preserved position after its value was replaced or removed. */
  lemma {:induction false} ListsPathPreserved(s: string, t: Json, t': Json, p: Json, rs: seq<string>, r: string)
    requires ProperPointer(r) && ListsPath(s, t, p, rs)
    requires Get(t', Dec(r)) == Get(p, Dec(r))
    requires forall q :: !(Dec(r) <= q) ==> LabelAt(t', q) == LabelAt(t, q)
    ensures ListsPath(s, t', p, rs + [r])
  {
    var q := Dec(s);
    AnyPrefixGrows(rs, r, s);
    if Dec(r) <= q {
      EncPrefixOfDescendant(Dec(r), q);
      assert q == Dec(r) + q[|Dec(r)|..];
      GetConcat(t', Dec(r), q[|Dec(r)|..]);
      GetConcat(p, Dec(r), q[|Dec(r)|..]);
    } else {
      assert LabelAt(t', q) == LabelAt(t, q);
    }
  }

  /** The preserved position was replaced by the platform's value, and its pointer and the walk below it
      were appended; or it was removed and nothing was appended. */
  lemma {:induction false} ListsPreserved(paths: seq<string>, more: seq<string>, t: Json, t': Json, p: Json,
                                          rs: seq<string>, r: string)
    requires Lists(paths, t, p, rs) && ProperPointer(r)
    requires Get(t', Dec(r)) == Get(p, Dec(r))
    requires forall q :: !(Dec(r) <= q) ==> LabelAt(t', q) == LabelAt(t, q)
    requires !Has(p, Dec(r)) ==> more == []
    requires Has(p, Dec(r)) ==> more != [] && more[0] == r && WalkBelow(more[1..], Get(p, Dec(r)).value, Dec(r))
    ensures Lists(paths + more, t', p, rs + [r])
  {
    var all := paths + more;
    forall i | 0 <= i < |more| ensures ListsPath(more[i], t', p, rs + [r]) && r <= more[i] {
      if i == 0 {
        AnyPrefixGrows(rs, r, r);
      } else {
        assert more[i] == more[1..][i - 1];
        ListsAppended(more[i], t', p, rs, r);
      }
    }
    forall i | 0 <= i < |all| ensures ListsPath(all[i], t', p, rs + [r]) {
      if i < |paths| { ListsPathPreserved(paths[i], t, t', p, rs, r); }
    }
    forall s { AnyPrefixGrows(rs, r, s); }
    forall i, k | 0 <= i < k < |all| && all[i] == all[k] ensures AnyPrefix(rs + [r], all[i]) {
      if k < |paths| { assert paths[i] == paths[k]; }
    }
    forall i | 0 <= i < |all| && !AnyPrefix(rs + [r], all[i]) ensures AncestorsIn(Dec(all[i]), [], all[..i]) {
      if i < |paths| { assert all[..i] == paths[..i]; }
    }
    ListsPreservedAll(paths, more, t, t', p, rs, r);
  }

  lemma {:induction false} ListsAppended(s: string, t': Json, p: Json, rs: seq<string>, r: string)
    requires ProperPointer(r) && Has(p, Dec(r)) && Get(t', Dec(r)) == Get(p, Dec(r))
    requires Listed(s, Get(p, Dec(r)).value, Dec(r), Tokens(Get(p, Dec(r)).value))
    ensures ListsPath(s, t', p, rs + [r]) && r <= s
  {
    var at, q := Dec(r), Dec(s);
    EncPrefixOfDescendant(at, q);
    assert q == at + q[|at|..];
    GetConcat(t', at, q[|at|..]);
  }

  lemma {:induction false} ListsPreservedAll(paths: seq<string>, more: seq<string>, t: Json, t': Json, p: Json,
                                             rs: seq<string>, r: string)
    requires Lists(paths, t, p, rs) && ProperPointer(r)
    requires Get(t', Dec(r)) == Get(p, Dec(r))
    requires forall q :: !(Dec(r) <= q) ==> LabelAt(t', q) == LabelAt(t, q)
    requires Has(p, Dec(r)) ==> more != [] && more[0] == r && WalkBelow(more[1..], Get(p, Dec(r)).value, Dec(r))
    ensures forall q :: q != [] && Has(t', q) ==> Enc(q) in paths + more
  {
    hide Enc, Dec;
    var at := Dec(r);
    forall q | q != [] && Has(t', q) ensures Enc(q) in paths + more {
      if at <= q {
        var rest := q[|at|..];
        assert q == at + rest;
        GetConcat(t', at, rest);
        var c := Get(p, at).value;
        if rest != [] {
          GetPrefix(c, [rest[0]], rest);
          GetChild(c, rest[0]);
          assert Has(c, rest) && rest[0] in Tokens(c);
          assert Enc(at + rest) in more[1..];
        } else {
          assert q == at && more[0] in more;
        }
      } else {
        assert LabelAt(t', q) == LabelAt(t, q);
      }
    }
  }

  // ---- the path list that preparing yields ----

  ghost predicate AllProper(rs: seq<string>) {
    forall i :: 0 <= i < |rs| ==> ProperPointer(rs[i])
  }

  /** Every argument names a position, or is no pointer at all. */
  ghost predicate Usable(rs: seq<string>) {
    forall i :: 0 <= i < |rs| ==> NoPointer(rs[i]) || ProperPointer(rs[i])
  }

  /** tw begins with a walk of t0, of n paths; what follows is at or below preserved positions. */
  ghost predicate WalkFirst(tw: seq<string>, n: nat, t0: Json, rs: seq<string>) {
    n <= |tw| && Walkable(tw[..n], t0) && forall k :: n <= k < |tw| ==> !Unpreserved(Dec(tw[k]), rs)
  }

  /** tw may be the path list of the template t0 once it is prepared, as t, for the comparison with p. */
  ghost predicate PreparedList(tw: seq<string>, t0: Json, t: Json, p: Json, rs: seq<string>) {
    Lists(tw, t, p, rs) && exists n: nat :: WalkFirst(tw, n, t0, rs)
  }

  /** The path list while it is prepared: the pointers in it, from those of the walk on. */
  ghost predicate Preparation(paths: seq<string>, walk: seq<string>, t: Json, p: Json, rs: seq<string>) {
    && walk <= PointersIn(paths) && Lists(PointersIn(paths), t, p, PointersIn(rs))
    && forall k :: |walk| <= k < |PointersIn(paths)| ==> !Unpreserved(Dec(PointersIn(paths)[k]), PointersIn(rs))
  }

  lemma PreparationBegins(walk: seq<string>, t: Json, p: Json)
    requires IsWalk(walk, t)
    ensures Preparation(walk, walk, t, p, [])
  {
    hide IsWalk, Lists, PointersIn;
    WalkIsSlashed(walk, t);
    AllArePointers(walk);
    NoneArePointers([]);
    WalkLists(walk, t, p);
  }

  lemma WalkIsSlashed(paths: seq<string>, j: Json)
    requires IsWalk(paths, j)
    ensures Slashed(paths)
  {
    hide Enc, Dec, IsWalk;
    WalkIsExact(paths, j);
    forall i | 0 <= i < |paths| ensures !NoPointer(paths[i]) {
      assert PointerInto(paths[i], j);
      EncStart(Dec(paths[i]));
    }
  }

  /** An argument that is no pointer, with whatever is listed for it. */
  lemma PreparationIgnores(paths: seq<string>, more: seq<string>, walk: seq<string>, t: Json, p: Json, rs: seq<string>,
                           r: string)
    requires Preparation(paths, walk, t, p, rs) && NoPointer(r) && NoPointers(more)
    ensures Preparation(paths + more, walk, t, p, rs + [r])
  {
    hide Lists, PointersIn, NoPointer;
    PointersInConcat(paths, more);
    NoneArePointers(more);
    PointersInConcat(rs, [r]);
    NoneArePointers([r]);
    assert PointersIn(paths) + [] == PointersIn(paths) && PointersIn(rs) + [] == PointersIn(rs);
  }

  /** A pointer among the arguments, with what is listed for it. */
  lemma PreparationGoesOn(paths: seq<string>, more: seq<string>, walk: seq<string>, t: Json, t': Json, p: Json,
                          rs: seq<string>, r: string)
    requires Preparation(paths, walk, t, p, rs) && ProperPointer(r) && Slashed(more)
    requires Lists(PointersIn(paths) + more, t', p, PointersIn(rs) + [r])
    requires forall k :: 0 <= k < |more| ==> Dec(r) <= Dec(more[k])
    ensures Preparation(paths + more, walk, t', p, rs + [r])
  {
    hide Lists, PointersIn, Dec, Enc, NoPointer;
    PointersInConcat(paths, more);
    AllArePointers(more);
    PointersInConcat(rs, [r]);
    ProperIsPointer(r);
    AllArePointers([r]);
    var all, rs' := PointersIn(paths) + more, PointersIn(rs) + [r];
    forall k | |walk| <= k < |all| ensures !Unpreserved(Dec(all[k]), rs') {
      if k < |PointersIn(paths)| {
        StillPreserved(Dec(PointersIn(paths)[k]), PointersIn(rs), r);
      } else {
        assert rs'[|PointersIn(rs)|] == r && all[k] == more[k - |PointersIn(paths)|];
      }
    }
  }

  lemma StillPreserved(q: Position, rs: seq<string>, r: string)
    requires !Unpreserved(q, rs)
    ensures !Unpreserved(q, rs + [r])
  {
    hide Dec;
    var i :| 0 <= i < |rs| && Dec(rs[i]) <= q;
    assert (rs + [r])[i] == rs[i];
  }

  lemma ProperIsPointer(r: string)
    requires ProperPointer(r)
    ensures !NoPointer(r)
  {
    hide Enc, Dec;
    EncStart(Dec(r));
  }

  lemma PreparationEnds(paths: seq<string>, walk: seq<string>, t0: Json, t: Json, p: Json, rs: seq<string>)
    requires Preparation(paths, walk, t, p, rs) && Walkable(walk, t0)
    ensures PreparedList(PointersIn(paths), t0, t, p, PointersIn(rs))
  {
    hide Lists, PointersIn, Dec, Walkable;
    assert PointersIn(paths)[..|walk|] == walk;
    assert WalkFirst(PointersIn(paths), |walk|, t0, PointersIn(rs));
  }
}
