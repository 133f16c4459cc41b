/** Exactly when the comparison can overlook that an immutable field differs: which documents are refused in some
    order of walking them, and which go through in another. */
module Overlooked {
  import opened Wrappers
  import opened Decimal
  import opened Text
  import opened Documents
  import opened Pointers
  import opened Merging
  import opened Walking
  import opened Arranging
  import opened Preparing
  import opened Platform
  import opened Comparison
  import opened Loops
  import opened Managed
  import opened Items
  import opened Changes
  import opened Hiding
  import opened Exactness
  import opened Choices
  import opened Orders

  // ---- immutable fields are no list elements ----

  lemma {:induction false} TokenInPointer(q: Position, i: nat)
    requires i < |q|
    ensures forall c :: c in JsonPointerPath(q[i]) ==> c in Enc(q)
  {
    hide JsonPointerPath, Enc;
    EncStep(q);
    if i > 0 { TokenInPointer(q[1..], i - 1); }
  }

  predicate HasDigit(s: string) {
    exists i :: 0 <= i < |s| && '0' <= s[i] <= '9'
  }

  lemma NoDigits(kind: string, f: string)
    requires f in ImmutableFields(kind)
    ensures !HasDigit(f)
  {
    hide HasDigit;
    NoDigitsInClaims();
    NoDigitsElsewhere();
  }

  lemma NoDigitsInClaims()
    ensures !HasDigit("/spec/accessModes") && !HasDigit("/spec/storageClassName")
  {
  }

  lemma NoDigitsElsewhere()
    ensures !HasDigit("/spec/resources/requests/storage") && !HasDigit("/spec/host") && !HasDigit("/type")
  {
  }

  lemma IndexHasDigits(token: string, s: string)
    requires ParseIndex(token).Some? && forall c :: c in JsonPointerPath(token) ==> c in s
    ensures HasDigit(s)
  {
    EscPlain(token);
    assert token[0] in s;
  }

  lemma NoElementIsImmutable(kind: string, q: Position, i: nat)
    requires Enc(q) in ImmutableFields(kind) && i < |q|
    ensures ParseIndex(q[i]).None?
  {
    hide Enc, ImmutableFields;
    TokenInPointer(q, i);
    NoDigits(kind, Enc(q));
    if ParseIndex(q[i]).Some? { IndexHasDigits(q[i], Enc(q)); }
  }

  // ---- exactly when ----

  lemma MismatchMeans(kind: string, t0: Json, t: Json, p: Json, rs: seq<string>, q: Position)
    requires PreservedFrom(t0, t, p, rs) && OpenMismatch(kind, t, p, rs, q)
    ensures q != [] && Has(t, q) && Has(p, Parent(q)) && Unpreserved(q, rs) && Has(t0, q)
    ensures !HiddenAlways(t0, t, p, rs, q)
  {
    hide Enc, Dec, Get, Unpreserved, PreservedFrom, AnyPrefix, ImmutableFields;
    PreservedMeans(t0, t, p, rs);
    UnpreservedPointer(rs, q);
    NeverHiddenAlways(kind, t0, t, p, rs, q);
  }

  lemma NeverHiddenAlways(kind: string, t0: Json, t: Json, p: Json, rs: seq<string>, q: Position)
    requires PreservedFrom(t0, t, p, rs) && Enc(q) in ImmutableFields(kind) && Has(t, q) && Has(t0, q)
    ensures !HiddenAlways(t0, t, p, rs, q)
  {
    hide Enc, Get, PreservedFrom, AddsAt, ImmutableFields, Unpreserved, AnyPrefix;
    forall x | AddsAt(t, p, rs, x) && x != q && Enc(x) <= Enc(q) ensures !InList(t, x) {
      AddedMeans(t0, t, p, rs, x);
      BesideOrAbove(x, q);
      var u := q[..|x|];
      GetPrefix(t, u, q);
      GetLast(t, u);
      NoElementIsImmutable(kind, q, |x| - 1);
    }
  }

  /** The order that has long pointers first finds every mismatch. */
  lemma FoundLongestFirst(kind: string, t0: Json, t: Json, p: Json, rs: seq<string>, tw: seq<string>, n: nat,
                          q: Position)
    requires PreservedFrom(t0, t, p, rs) && ChosenList(t0, t, p, rs, Leading([], []), tw, n)
    requires OpenMismatch(kind, t, p, rs, q)
    ensures MismatchAmong(kind, t, p, rs, tw, |tw|)
  {
    hide Enc, Dec, Get, ChosenList, PreservedFrom, Mismatch, Leading, Seen, PassedBy, AnyPrefix, HiddenAlways,
      Unpreserved;
    MismatchMeans(kind, t0, t, p, rs, q);
    SparedFromTheRoot(t0, t, p, rs, tw, n, q);
    var k := ChosenIndex(t0, t, p, rs, Leading([], []), tw, n, q);
    assert !LeftAlone(t, p, rs, tw, k);
  }

  /** The order that has short pointers first passes over all that can be passed over. */
  function ByLength(): Ranking {
    (q: Position) => |Enc(q)| as real
  }

  lemma HiddenShortestFirst(t0: Json, t: Json, p: Json, rs: seq<string>, tw: seq<string>, n: nat, w: Position)
    requires PreservedFrom(t0, t, p, rs) && ChosenList(t0, t, p, rs, ByLength(), tw, n) && HiddenBySome(t, p, rs, w)
    ensures forall k :: 0 <= k < |tw| && tw[k] == Enc(w) ==> PassedBy(t, p, rs, tw, k)
  {
    hide Enc, Dec, Get, ChosenList, PreservedFrom, PassedBy, AddsAt, Seen, InList;
    var x :| AddsAt(t, p, rs, x) && x != w && Enc(x) <= Enc(w);
    AddedMeans(t0, t, p, rs, x);
    BesideOrAbove(x, w);
    HiddenThere(t0, t, p, rs, ByLength(), tw, n, x, w);
  }

  lemma OverlookedShortestFirst(kind: string, t0: Json, t: Json, p: Json, rs: seq<string>, tw: seq<string>, n: nat)
    requires PreservedFrom(t0, t, p, rs) && ChosenList(t0, t, p, rs, ByLength(), tw, n)
    requires forall q :: OpenMismatch(kind, t, p, rs, q) ==> HiddenBySome(t, p, rs, q)
    ensures !MismatchAmong(kind, t, p, rs, tw, |tw|)
  {
    hide Enc, Dec, Get, ChosenList, PreservedFrom, PassedBy, Mismatch, HiddenBySome, AnyPrefix, ByLength;
    ChosenLists(t0, t, p, rs, ByLength(), tw, n);
    forall k | 0 <= k < |tw| && Mismatch(kind, t, p, Dec(tw[k])) ensures LeftAlone(t, p, rs, tw, k) {
      NotYetDropped(t, p, rs, tw, k);
      if !AnyPrefix(rs, tw[k]) {
        assert OpenMismatch(kind, t, p, rs, Dec(tw[k]));
        HiddenShortestFirst(t0, t, p, rs, tw, n, Dec(tw[k]));
      }
    }
  }

  lemma FoundIsOpen(kind: string, t: Json, p: Json, rs: seq<string>, tw: seq<string>)
    requires Lists(tw, t, p, rs) && MismatchAmong(kind, t, p, rs, tw, |tw|)
    ensures exists q :: OpenMismatch(kind, t, p, rs, q)
  {
    hide Enc, Dec, Get, PassedBy, Mismatch, AnyPrefix, Lists;
    var k :| 0 <= k < |tw| && Mismatch(kind, t, p, Dec(tw[k])) && !LeftAlone(t, p, rs, tw, k);
    NotYetDropped(t, p, rs, tw, k);
    assert OpenMismatch(kind, t, p, rs, Dec(tw[k]));
  }

  /** Some order finds a mismatch exactly when there is one that is not preserved; some order overlooks all of them
      exactly when each is preserved, or hidden by a position that the template adds. */
  lemma MismatchesOverlookedExactlyIf(kind: string, t0: Json, t: Json, p: Json, rs: seq<string>)
    requires PreservedFrom(t0, t, p, rs)
    ensures (exists tw :: PreparedList(tw, t0, t, p, rs) && MismatchAmong(kind, t, p, rs, tw, |tw|)) <==>
            exists q :: OpenMismatch(kind, t, p, rs, q)
    ensures (exists tw :: PreparedList(tw, t0, t, p, rs) && !MismatchAmong(kind, t, p, rs, tw, |tw|)) <==>
            forall q :: OpenMismatch(kind, t, p, rs, q) ==> HiddenBySome(t, p, rs, q)
  {
    hide PreservedFrom, MismatchAmong, OpenMismatch, HiddenBySome, ByLength, Leading, PreparedList, ChosenList;
    forall tw | PreparedList(tw, t0, t, p, rs)
      ensures MismatchAmong(kind, t, p, rs, tw, |tw|) ==> exists q :: OpenMismatch(kind, t, p, rs, q)
      ensures !MismatchAmong(kind, t, p, rs, tw, |tw|) ==>
                forall q :: OpenMismatch(kind, t, p, rs, q) ==> HiddenBySome(t, p, rs, q)
    {
      PreparedLists(tw, t0, t, p, rs);
      if MismatchAmong(kind, t, p, rs, tw, |tw|) { FoundIsOpen(kind, t, p, rs, tw); }
      forall q | OpenMismatch(kind, t, p, rs, q) && !HiddenBySome(t, p, rs, q)
        ensures MismatchAmong(kind, t, p, rs, tw, |tw|)
      {
        FoundUnlessHidden(kind, t, p, rs, tw, q);
      }
    }
    if q :| OpenMismatch(kind, t, p, rs, q) {
      var tw, n := ChooseList(t0, t, p, rs, Leading([], []));
      ChosenIsPrepared(t0, t, p, rs, Leading([], []), tw, n);
      FoundLongestFirst(kind, t0, t, p, rs, tw, n, q);
    }
    if forall q :: OpenMismatch(kind, t, p, rs, q) ==> HiddenBySome(t, p, rs, q) {
      var tw, n := ChooseList(t0, t, p, rs, ByLength());
      ChosenIsPrepared(t0, t, p, rs, ByLength(), tw, n);
      OverlookedShortestFirst(kind, t0, t, p, rs, tw, n);
    }
  }

  lemma PreparedLists(tw: seq<string>, t0: Json, t: Json, p: Json, rs: seq<string>)
    requires PreparedList(tw, t0, t, p, rs)
    ensures Lists(tw, t, p, rs)
  {
    hide Lists, WalkFirst;
  }

  lemma ChosenIsPrepared(t0: Json, t: Json, p: Json, rs: seq<string>, rank: Ranking, tw: seq<string>, n: nat)
    requires ChosenList(t0, t, p, rs, rank, tw, n)
    ensures PreparedList(tw, t0, t, p, rs)
  {
    hide Lists, WalkFirst, Ranked;
  }

  /** What that means for the result: whether some order refuses or recreates, and whether some order ends with
      one change all the same, as conditions on the two documents. */
  lemma FieldsOverlookedExactlyIf(kind: string, name: string, pKind: string, pName: string, t0: Json, t: Json, p: Json,
                                  rs: seq<string>, allowRecreate: bool)
    requires PreservedFrom(t0, t, p, rs) && PlainAnnotations(p) && DropsMembersOnly(t, p) && KeepsMembersOnly(t, p)
    ensures (exists tw, pw :: Possible(t0, t, p, rs, tw, pw) &&
                              StopsAtField(allowRecreate,
                                           LoopsOutcome(kind, name, pKind, pName, t, p, rs, tw, pw, allowRecreate)))
       <==> exists q :: OpenMismatch(kind, t, p, rs, q)
    ensures (exists tw, pw :: Possible(t0, t, p, rs, tw, pw) &&
                              !StopsAtField(allowRecreate,
                                            LoopsOutcome(kind, name, pKind, pName, t, p, rs, tw, pw, allowRecreate)))
       <==> forall q :: OpenMismatch(kind, t, p, rs, q) ==> HiddenBySome(t, p, rs, q)
  {
    hide Walkable, MismatchAmong, OpenMismatch, HiddenBySome, LoopsOutcome, PlainAnnotations, DropsMembersOnly,
      KeepsMembersOnly, PreservedFrom, PreparedList, StopsAtField;
    MismatchesOverlookedExactlyIf(kind, t0, t, p, rs);
    forall tw, pw | Possible(t0, t, p, rs, tw, pw)
      ensures StopsAtField(allowRecreate, LoopsOutcome(kind, name, pKind, pName, t, p, rs, tw, pw, allowRecreate)) <==>
              MismatchAmong(kind, t, p, rs, tw, |tw|)
    {
      StopsExactlyIf(kind, name, pKind, pName, t0, t, p, rs, tw, pw, allowRecreate);
    }
    var pw := WholeRankedWalk(p, NoRank);
    assert forall tw :: PreparedList(tw, t0, t, p, rs) ==> Possible(t0, t, p, rs, tw, pw);
  }

  /** A comparison stops at an immutable field exactly when it finds a mismatch. */
  lemma StopsExactlyIf(kind: string, name: string, pKind: string, pName: string, t0: Json, t: Json, p: Json,
                       rs: seq<string>, tw: seq<string>, pw: seq<string>, allowRecreate: bool)
    requires PlainAnnotations(p) && DropsMembersOnly(t, p) && KeepsMembersOnly(t, p) && Possible(t0, t, p, rs, tw, pw)
    ensures StopsAtField(allowRecreate, LoopsOutcome(kind, name, pKind, pName, t, p, rs, tw, pw, allowRecreate)) <==>
            MismatchAmong(kind, t, p, rs, tw, |tw|)
  {
    hide Possible, MismatchAmong, LoopsOutcome, PlainAnnotations, DropsMembersOnly, KeepsMembersOnly, Lists, IsWalk,
      Final, FinalDocument;
    PossibleWalks(t0, t, p, rs, tw, pw);
    LoopsEndFinal(kind, name, pKind, pName, t, p, rs, tw, pw, allowRecreate);
  }

  // ---- a case in point ----

  const METADATA_OF_CASE := Obj(map["name" := Str("s")])
  const WANTED := Obj(map["kind" := Str("Secret"), "metadata" := METADATA_OF_CASE, "t" := Str("1"), "type" := Str("b")])
  const CURRENT := Obj(map["kind" := Str("Secret"), "metadata" := METADATA_OF_CASE, "type" := Str("a")])

  /** The positions at in walking order, and paths their pointers. */
  ghost predicate Lays(paths: seq<string>, at: seq<Position>, j: Json) {
    && |paths| == |at| && (forall i :: 0 <= i < |at| ==> paths[i] == Enc(at[i]) && at[i] != [] && Has(j, at[i]))
    && (forall q :: q != [] && Has(j, q) ==> q in at)
    && (forall i, k :: 0 <= i < k < |at| ==> at[i] != at[k])
    && (forall i, n :: 0 <= i < |at| && 0 < n < |at[i]| ==> at[i][..n] in at[..i])
    && (forall i, k, m :: 0 <= i < k < m < |at| && at[i] <= at[m] ==> at[i] <= at[k])
  }

  lemma LaidIsWalk(paths: seq<string>, at: seq<Position>, j: Json)
    requires Lays(paths, at, j) && forall q :: !HoldsList(j, q)
    ensures Walkable(paths, j) && forall i :: 0 <= i < |at| ==> Dec(paths[i]) == at[i]
  {
    hide Enc, Dec, Get, Lays, AllInto, AllOf, Distinct, ParentsFirst, IsWalk;
    LaidInto(paths, at, j);
    LaidOf(paths, at, j);
    LaidParentsFirst(paths, at, j);
    WalkIsExact(paths, j);
    LaidDepthFirst(paths, at, j);
    NothingAscends(paths, j);
  }

  lemma NothingAscends(paths: seq<string>, j: Json)
    requires forall q :: !HoldsList(j, q)
    ensures ElementsAscend(paths, j, [])
  {
    hide HoldsList, Dec;
  }

  lemma NoListsInCase(q: Position)
    ensures !HoldsList(WANTED, q) && !HoldsList(CURRENT, q)
  {
    hide Get, WANTED, CURRENT;
    ValuesOfCase();
    RootIsThere(WANTED);
    RootIsThere(CURRENT);
    Members(WANTED, q);
    Members(CURRENT, q);
    ObjectsOfCase();
  }

  lemma ObjectsOfCase()
    ensures WANTED.Obj? && CURRENT.Obj? && METADATA_OF_CASE.Obj?
  {
  }

  lemma LaidInto(paths: seq<string>, at: seq<Position>, j: Json)
    requires Lays(paths, at, j)
    ensures |paths| == |at| && forall i :: 0 <= i < |at| ==> Dec(paths[i]) == at[i]
    ensures AllInto(paths, j) && Distinct(paths)
  {
    hide Enc, Dec, Get;
    forall i | 0 <= i < |at| ensures Dec(paths[i]) == at[i] { DecEnc(at[i]); }
  }

  lemma LaidOf(paths: seq<string>, at: seq<Position>, j: Json)
    requires Lays(paths, at, j)
    ensures AllOf(paths, j)
  {
    hide Enc, Dec, Get;
    forall q | q != [] && Has(j, q) ensures Enc(q) in paths {
      var i :| 0 <= i < |at| && at[i] == q;
      assert paths[i] == Enc(q);
    }
  }

  lemma LaidParentsFirst(paths: seq<string>, at: seq<Position>, j: Json)
    requires Lays(paths, at, j) && forall i :: 0 <= i < |at| ==> Dec(paths[i]) == at[i]
    ensures ParentsFirst(paths, [])
  {
    hide Enc, Dec, Get;
    forall i, n | 0 <= i < |at| && 0 < n < |at[i]| ensures Enc(at[i][..n]) in paths[..i] {
      var m := PlaceOf(at[..i], at[i][..n]);
      assert paths[..i][m] == Enc(at[m]);
    }
  }

  lemma PlaceOf(at: seq<Position>, q: Position) returns (m: nat)
    requires q in at
    ensures m < |at| && at[m] == q
  {
    m :| 0 <= m < |at| && at[m] == q;
  }

  lemma LaidDepthFirst(paths: seq<string>, at: seq<Position>, j: Json)
    requires Lays(paths, at, j) && forall i :: 0 <= i < |at| ==> Dec(paths[i]) == at[i]
    ensures DepthFirst(paths)
  {
    hide Enc, Dec, Get;
  }

  lemma Members(j: Json, q: Position)
    requires j == WANTED || j == CURRENT
    ensures q != [] ==> (Has(j, q) <==>
                         || q == ["kind"] || q == ["metadata"] || q == ["metadata", "name"] || q == ["type"]
                         || (q == ["t"] && j == WANTED))
  {
    if q != [] {
      GetChild(j, q[0]);
      assert |q| == 1 ==> q == [q[0]];
      assert |q| == 2 ==> q == [q[0], q[1]];
      if |q| > 1 && HasChild(j, q[0]) {
        var c := Child(j, q[0]);
        assert Get(j, q) == Get(c, q[1..]) && c.Obj? == (q[0] == "metadata");
        if c.Obj? && HasChild(c, q[1]) { assert Get(c, q[1..]) == Get(Str("s"), q[1..][1..]); }
      }
    }
  }

  lemma ValuesOfCase()
    ensures Get(WANTED, ["kind"]) == Some(Str("Secret")) && Get(CURRENT, ["kind"]) == Some(Str("Secret"))
    ensures Get(WANTED, ["metadata", "name"]) == Some(Str("s")) && Get(CURRENT, ["metadata", "name"]) == Some(Str("s"))
    ensures Get(WANTED, ["metadata"]) == Some(METADATA_OF_CASE) && Get(CURRENT, ["metadata"]) == Some(METADATA_OF_CASE)
    ensures Get(WANTED, ["type"]) == Some(Str("b")) && Get(CURRENT, ["type"]) == Some(Str("a"))
    ensures Get(WANTED, ["t"]) == Some(Str("1"))
  {
    GetChild(WANTED, "kind");
    GetChild(CURRENT, "kind");
    GetChild(WANTED, "type");
    GetChild(CURRENT, "type");
    GetChild(WANTED, "t");
    GetChild(WANTED, "metadata");
    GetChild(CURRENT, "metadata");
    GetChild(METADATA_OF_CASE, "name");
    assert ["metadata", "name"] == ["metadata"] + ["name"];
    GetConcat(WANTED, ["metadata"], ["name"]);
    GetConcat(CURRENT, ["metadata"], ["name"]);
  }

  lemma PointersOfCase()
    ensures Enc(["kind"]) == "/kind" && Enc(["type"]) == "/type" && Enc(["t"]) == "/t"
    ensures Enc(["metadata"]) == "/metadata" && Enc(["metadata", "name"]) == "/metadata/name"
  {
    hide Enc;
    PointerOfMember("kind", "/kind");
    PointerOfMember("type", "/type");
    PointerOfMember("t", "/t");
    PointerOfMember("metadata", "/metadata");
    PointerOfMember("name", "/name");
    EncPlain("metadata", ["name"]);
    assert ["metadata"] + ["name"] == ["metadata", "name"] && "/" + "metadata" + "/name" == "/metadata/name";
  }

  lemma PointerOfMember(k: string, pointer: string)
    requires '~' !in k && '/' !in k && pointer == "/" + k
    ensures Enc([k]) == pointer
  {
    EncPlain(k, []);
    assert [k] + [] == [k] && "/" + k + "" == "/" + k;
  }

  const TYPE_FIRST := ["/type", "/t", "/kind", "/metadata", "/metadata/name"]
  const TYPE_AFTER_T := ["/t", "/type", "/kind", "/metadata", "/metadata/name"]
  const CURRENT_PATHS := ["/type", "/kind", "/metadata", "/metadata/name"]

  lemma WalksOfCase()
    ensures Walkable(TYPE_FIRST, WANTED) && Dec(TYPE_FIRST[0]) == ["type"]
    ensures Walkable(TYPE_AFTER_T, WANTED) && Dec(TYPE_AFTER_T[0]) == ["t"] && Dec(TYPE_AFTER_T[1]) == ["type"]
    ensures Walkable(CURRENT_PATHS, CURRENT)
  {
    hide Enc, Dec, Get, Walkable, Lays, HoldsList, WANTED, CURRENT;
    LaidOut();
    forall q ensures !HoldsList(WANTED, q) && !HoldsList(CURRENT, q) { NoListsInCase(q); }
    LaidIsWalk(TYPE_FIRST, TYPE_FIRST_AT, WANTED);
    LaidIsWalk(TYPE_AFTER_T, TYPE_AFTER_T_AT, WANTED);
    LaidIsWalk(CURRENT_PATHS, CURRENT_AT, CURRENT);
  }

  const TYPE_FIRST_AT: seq<Position> := [["type"], ["t"], ["kind"], ["metadata"], ["metadata", "name"]]
  const TYPE_AFTER_T_AT: seq<Position> := [["t"], ["type"], ["kind"], ["metadata"], ["metadata", "name"]]
  const CURRENT_AT: seq<Position> := [["type"], ["kind"], ["metadata"], ["metadata", "name"]]

  lemma LaidOut()
    ensures Lays(TYPE_FIRST, TYPE_FIRST_AT, WANTED)
    ensures Lays(TYPE_AFTER_T, TYPE_AFTER_T_AT, WANTED)
    ensures Lays(CURRENT_PATHS, CURRENT_AT, CURRENT)
  {
    hide Enc, Get, WANTED, CURRENT, Lays;
    forall q ensures Has(WANTED, q) && q != [] ==> q in TYPE_FIRST_AT && q in TYPE_AFTER_T_AT { Members(WANTED, q); }
    TypeFirstLaid();
    TypeAfterTLaid();
    CurrentLaid();
  }

  lemma TypeFirstLaid()
    requires forall q :: Has(WANTED, q) && q != [] ==> q in TYPE_FIRST_AT
    ensures Lays(TYPE_FIRST, TYPE_FIRST_AT, WANTED)
  {
    hide Enc, Get, WANTED, CURRENT;
    PointersOfCase();
    ValuesOfCase();
    assert ["metadata", "name"][..1] == ["metadata"] && TYPE_FIRST_AT[..4][3] == ["metadata"];
  }

  lemma TypeAfterTLaid()
    requires forall q :: Has(WANTED, q) && q != [] ==> q in TYPE_AFTER_T_AT
    ensures Lays(TYPE_AFTER_T, TYPE_AFTER_T_AT, WANTED)
  {
    hide Enc, Get, WANTED, CURRENT;
    PointersOfCase();
    ValuesOfCase();
    assert ["metadata", "name"][..1] == ["metadata"] && TYPE_AFTER_T_AT[..4][3] == ["metadata"];
  }

  lemma CurrentLaid()
    ensures Lays(CURRENT_PATHS, CURRENT_AT, CURRENT)
  {
    hide Enc, Get, WANTED, CURRENT;
    PointersOfCase();
    ValuesOfCase();
    forall q ensures Has(CURRENT, q) && q != [] ==> q in CURRENT_AT { Members(CURRENT, q); }
    assert ["metadata", "name"][..1] == ["metadata"] && CURRENT_AT[..3][2] == ["metadata"];
  }

  /** Nothing is dropped or copied in this case; the only mismatch is the type, and the position t is before it. */
  lemma DifferencesOfCase(q: Position)
    ensures !Dropped(WANTED, CURRENT, q) && !Kept(WANTED, CURRENT, q)
    ensures Has(CURRENT, q) ==> !EmptyCollection(Get(CURRENT, q).value)
    ensures Added(WANTED, CURRENT, ["t"])
    ensures Mismatch("Secret", WANTED, CURRENT, q) <==> q == ["type"]
    ensures PlainAnnotations(CURRENT)
  {
    hide Enc, Get, WANTED, CURRENT, Dropped, Kept, Added, Mismatch, PlainAnnotations;
    NeitherInCase(q);
    AddedInCase();
    MismatchInCase(q);
  }

  lemma NeitherInCase(q: Position)
    ensures !Dropped(WANTED, CURRENT, q) && !Kept(WANTED, CURRENT, q)
    ensures Has(CURRENT, q) ==> !EmptyCollection(Get(CURRENT, q).value)
  {
    hide Enc, Get, WANTED, CURRENT;
    ValuesOfCase();
    Members(WANTED, q);
    Members(CURRENT, q);
    RootIsThere(CURRENT);
    RootsOfCase();
  }

  lemma AddedInCase()
    ensures Added(WANTED, CURRENT, ["t"]) && PlainAnnotations(CURRENT)
  {
    hide Enc, Get, WANTED, CURRENT;
    ValuesOfCase();
    Members(CURRENT, ["t"]);
    Members(CURRENT, ANNOTATIONS);
    RootIsThere(CURRENT);
    assert Parent(["t"]) == [];
  }

  lemma MismatchInCase(q: Position)
    ensures Mismatch("Secret", WANTED, CURRENT, q) <==> q == ["type"]
  {
    hide Enc, Get, WANTED, CURRENT;
    ValuesOfCase();
    RootIsThere(CURRENT);
    assert Parent(["type"]) == [];
    PointersOfCase();
    if Enc(q) == "/type" {
      DecEnc(q);
      DecEnc(["type"]);
    }
  }

  lemma RootsOfCase()
    ensures !EmptyCollection(CURRENT) && !EmptyCollection(METADATA_OF_CASE)
  {
    assert "kind" in CURRENT.fields && "name" in METADATA_OF_CASE.fields;
  }

  lemma DocumentsOfCase()
    ensures DropsMembersOnly(WANTED, CURRENT) && KeepsMembersOnly(WANTED, CURRENT) && PlainAnnotations(CURRENT)
  {
    hide Get, WANTED, CURRENT, Dropped, Kept, PlainAnnotations;
    forall q ensures !Dropped(WANTED, CURRENT, q) && !Kept(WANTED, CURRENT, q) { DifferencesOfCase(q); }
    DifferencesOfCase([]);
  }

  lemma ParsableInCase()
    ensures Parsable(WANTED, Obj(map[])) && Parsable(CURRENT, Obj(map[])) && IsComparable(WANTED)
    ensures IsComparable(CURRENT)
    ensures IdentityOf(WANTED, "Secret", "s") && IdentityOf(CURRENT, "Secret", "s")
  {
    ValuesOfCase();
    Members(WANTED, ANNOTATIONS);
    Members(CURRENT, ANNOTATIONS);
    GetChild(Obj(map[]), "metadata");
    assert !Has(Obj(map[]), ANNOTATIONS);
  }

  lemma FieldsNotInCase(i: nat)
    requires i < |SIMPLE_FIELDS|
    ensures SIMPLE_FIELDS[i] != []
    ensures SIMPLE_FIELDS[i][0] != "kind" && SIMPLE_FIELDS[i][0] != "t" && SIMPLE_FIELDS[i][0] != "type"
    ensures SIMPLE_FIELDS[i][0] == "metadata" ==> |SIMPLE_FIELDS[i]| > 1 && SIMPLE_FIELDS[i][1] != "name"
  {
  }

  /** Parsing leaves such documents as they are. */
  lemma CleanInCase(j: Json)
    requires j == WANTED || j == CURRENT
    ensures Cleaned(j, j)
  {
    hide Enc, Get, SIMPLE_FIELDS, MatchesRegexField, WANTED, CURRENT;
    forall q | IsManaged(q) ensures LabelAt(j, q) == None {
      Members(j, q);
      if MatchesRegexField(Enc(q)) {
        MatchingSpec(q);
      } else {
        var i :| 0 <= i < |SIMPLE_FIELDS| && SIMPLE_FIELDS[i] <= q;
        FieldsNotInCase(i);
      }
    }
  }

  lemma RefusedInThisOrder()
    ensures TemplateLoop("Secret", WANTED, CURRENT, [], TYPE_FIRST) == Mismatched("/type", WANTED)
  {
    hide Enc, Dec, Get, WANTED, CURRENT, TemplateLoop, TemplateStep, TYPE_FIRST;
    NothingLooped("Secret", WANTED, CURRENT, [], TYPE_FIRST);
    FirstPathOfCase();
    TemplateLoopNext("Secret", WANTED, CURRENT, [], TYPE_FIRST, 0);
    TemplateLoopStops("Secret", WANTED, CURRENT, [], TYPE_FIRST, 1);
  }

  lemma FirstPathOfCase()
    ensures |TYPE_FIRST| > 1 && TYPE_FIRST[0] == "/type"
    ensures TemplateStep("Secret", CURRENT, [], Going(WANTED, {}, []), "/type") == Mismatched("/type", WANTED)
  {
    hide Enc, Dec, Get, WANTED, CURRENT, Walkable;
    WalksOfCase();
    ValuesOfCase();
    NothingIsPrefix("/type");
    assert "/type" in ImmutableFields("Secret");
  }

  lemma NotFoundInThatOrder()
    ensures !MismatchAmong("Secret", WANTED, CURRENT, [], TYPE_AFTER_T, |TYPE_AFTER_T|)
  {
    hide Enc, Dec, WANTED, CURRENT, Mismatch, Added, Walkable;
    WalksOfCase();
    NothingIsPrefix("/t");
    DifferencesOfCase([]);
    assert "/t" <= "/type";
    assert Adds(WANTED, CURRENT, [], TYPE_AFTER_T[0]);
    forall k | 0 <= k < |TYPE_AFTER_T| && Mismatch("Secret", WANTED, CURRENT, Dec(TYPE_AFTER_T[k]))
      ensures PassedBy(WANTED, CURRENT, [], TYPE_AFTER_T, k)
    {
      DifferencesOfCase(Dec(TYPE_AFTER_T[k]));
      InWalk(TYPE_AFTER_T, WANTED, k);
      PointersOfCase();
    }
  }

  /** The document that such a comparison ends with is the template's, unchanged. */
  lemma EndsWithWanted(d: Json)
    requires Final(WANTED, CURRENT, [], TYPE_AFTER_T, CURRENT_PATHS, d)
    ensures d == WANTED
  {
    hide Enc, Get, WANTED, CURRENT, LeftAlone, Seen, ToldBefore, Dropped;
    forall m | 0 <= m < |CURRENT_PATHS| ensures !Takes(WANTED, CURRENT, [], TYPE_AFTER_T, CURRENT_PATHS, m) {
      DifferencesOfCase(Dec(CURRENT_PATHS[m]));
    }
    forall q ensures LabelAt(d, q) == LabelAt(WANTED, q) { DifferencesOfCase(q); }
    SameLabels(d, WANTED);
  }

  /** The type of a secret must not change. With a field before it whose name is a prefix, the same two documents,
      which any template and cluster may hold, are refused, or updated regardless, depending on the order in which
      the fields are walked. */
  lemma ImmutableFieldCanBeHidden()
    ensures Parsable(WANTED, Obj(map[])) && Parsable(CURRENT, Obj(map[])) && IsComparable(WANTED)
    ensures IsComparable(CURRENT)
    ensures IdentityOf(WANTED, "Secret", "s") && IdentityOf(CURRENT, "Secret", "s")
    ensures Cleaned(WANTED, WANTED) && Cleaned(CURRENT, CURRENT)
    ensures Mismatch("Secret", WANTED, CURRENT, ["type"])
    ensures Walkable(TYPE_FIRST, WANTED) && Walkable(TYPE_AFTER_T, WANTED) && Walkable(CURRENT_PATHS, CURRENT)
    ensures LoopsOutcome("Secret", "s", "Secret", "s", WANTED, CURRENT, [], TYPE_FIRST, CURRENT_PATHS, false) ==
            Failure(Immutable("/type", "Secret", "s"))
    ensures LoopsOutcome("Secret", "s", "Secret", "s", WANTED, CURRENT, [], TYPE_AFTER_T, CURRENT_PATHS, false) ==
            Success([Change(Update, "Secret", "s", Yaml(CURRENT), Yaml(WANTED))])
  {
    hide Walkable, WANTED, CURRENT, Parsable, IsComparable, IdentityOf, Cleaned, Mismatch, LoopsOutcome, TYPE_FIRST,
      TYPE_AFTER_T, CURRENT_PATHS;
    WalksOfCase();
    ParsableInCase();
    CleanInCase(WANTED);
    CleanInCase(CURRENT);
    MismatchInCase(["type"]);
    OutcomeInThisOrder();
    OutcomeInThatOrder();
  }

  lemma OutcomeInThisOrder()
    ensures LoopsOutcome("Secret", "s", "Secret", "s", WANTED, CURRENT, [], TYPE_FIRST, CURRENT_PATHS, false) ==
            Failure(Immutable("/type", "Secret", "s"))
  {
    hide WANTED, CURRENT, TemplateLoop, PlatformLoop, TYPE_FIRST, CURRENT_PATHS;
    RefusedInThisOrder();
  }

  lemma OutcomeInThatOrder()
    ensures LoopsOutcome("Secret", "s", "Secret", "s", WANTED, CURRENT, [], TYPE_AFTER_T, CURRENT_PATHS, false) ==
            Success([Change(Update, "Secret", "s", Yaml(CURRENT), Yaml(WANTED))])
  {
    hide Walkable, WANTED, CURRENT, LoopsOutcome, Final, FinalDocument, MismatchAmong, PlainAnnotations,
      DropsMembersOnly, KeepsMembersOnly, Lists, IsWalk, TYPE_AFTER_T, CURRENT_PATHS, Get;
    WalksOfCase();
    DocumentsOfCase();
    ValuesOfCase();
    WalkableIsWalk(TYPE_AFTER_T, WANTED);
    WalkableIsWalk(CURRENT_PATHS, CURRENT);
    WalkLists(TYPE_AFTER_T, WANTED, CURRENT);
    NotFoundInThatOrder();
    LoopsEndFinal("Secret", "s", "Secret", "s", WANTED, CURRENT, [], TYPE_AFTER_T, CURRENT_PATHS, false);
    EndsWithWanted(FinalDocument("Secret", WANTED, CURRENT, [], TYPE_AFTER_T, CURRENT_PATHS));
  }
}
