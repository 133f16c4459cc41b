/** Fields that the platform manages and that are never compared (pkg/openshift/item.go): a table of
    pointers, and one regular expression over pointers. */
module Managed {
  import opened Wrappers
  import opened Decimal
  import opened Documents
  import opened Pointers
  import opened Walking

  const SIMPLE_FIELDS: seq<Position> := [
    ["groupNames"],
    ["imagePullSecrets"],
    ["metadata", "creationTimestamp"],
    ["metadata", "generation"],
    ["metadata", "managedFields"],
    ["metadata", "namespace"],
    ["metadata", "resourceVersion"],
    ["metadata", "selfLink"],
    ["metadata", "uid"],
    ["secrets"],
    ["spec", "clusterIP"],
    ["spec", "clusterIPs"],
    ["spec", "jobTemplate", "metadata", "creationTimestamp"],
    ["spec", "jobTemplate", "spec", "template", "metadata", "creationTimestamp"],
    ["spec", "selector", "matchLabels", "controller-uid"],
    ["spec", "tags"],
    ["spec", "template", "metadata", "creationTimestamp"],
    ["spec", "template", "metadata", "labels", "controller-uid"],
    ["spec", "volumeName"],
    ["status"],
    ["userNames"]
  ]

  const TRIGGERS_HEAD := "/spec/triggers/"
  const TRIGGERS_TAIL := "/imageChangeParams/lastTriggeredImage"

  function DigitRun(s: string): (n: nat)
    ensures n <= |s| && AllDigits(s[..n]) && (n < |s| ==> !('0' <= s[n] <= '9'))
  {
    if s != "" && '0' <= s[0] <= '9' then
      var n := DigitRun(s[1..]);
      assert s[..n + 1] == [s[0]] + s[1..][..n];
      n + 1
    else 0
  }

  // The regular expression is anchored at its start only: TRIGGERS_HEAD, digits or none, TRIGGERS_TAIL.
  predicate MatchesRegexField(path: string) {
    TRIGGERS_HEAD <= path &&
    var rest := path[|TRIGGERS_HEAD|..];
    TRIGGERS_TAIL <= rest[DigitRun(rest)..]
  }

  predicate AtOrBelow(fields: seq<Position>, q: Position) {
    exists i :: 0 <= i < |fields| && fields[i] <= q
  }

  /** q is a platform-managed field, or below one. */
  predicate IsManaged(q: Position) {
    AtOrBelow(SIMPLE_FIELDS, q) || MatchesRegexField(Enc(q))
  }

  /** cleaned is j without its platform-managed fields. */
  ghost predicate Cleaned(j: Json, cleaned: Json) {
    forall q :: LabelAt(cleaned, q) == if IsManaged(q) then None else LabelAt(j, q)
  }

  // ---- the table ----

  predicate NotAnIndex(token: string) {
    token != "" && !('0' <= token[0] <= '9')
  }

  lemma SimpleFieldsAreMembers(i: nat)
    requires i < |SIMPLE_FIELDS|
    ensures SIMPLE_FIELDS[i] != [] && NotAnIndex(SIMPLE_FIELDS[i][|SIMPLE_FIELDS[i]| - 1])
  {
  }

  /** Something at the top level, in the metadata or in the specification that the platform fills in. */
  predicate FilledIn(q: Position) {
    || (|q| > 0 && q[0] in ["groupNames", "imagePullSecrets", "secrets", "status", "userNames"])
    || (|q| > 1 && q[0] == "metadata" &&
        q[1] in ["creationTimestamp", "generation", "managedFields", "namespace", "resourceVersion", "selfLink", "uid"])
    || (|q| > 1 && q[0] == "spec" && q[1] in ["clusterIP", "clusterIPs", "tags", "volumeName"])
    || ["spec", "selector", "matchLabels", "controller-uid"] <= q
    || ["spec", "template", "metadata", "labels", "controller-uid"] <= q
    || ["spec", "template", "metadata", "creationTimestamp"] <= q
    || ["spec", "jobTemplate", "metadata", "creationTimestamp"] <= q
    || ["spec", "jobTemplate", "spec", "template", "metadata", "creationTimestamp"] <= q
  }

  /** What the table covers, by the part of the document. */
  lemma SimpleFieldsCover(q: Position)
    ensures AtOrBelow(SIMPLE_FIELDS, q) <==> FilledIn(q)
  {
    hide FilledIn;
    if AtOrBelow(SIMPLE_FIELDS, q) {
      var i :| 0 <= i < |SIMPLE_FIELDS| && SIMPLE_FIELDS[i] <= q;
      FieldIsFilledIn(i, q);
    }
    if FilledIn(q) {
      var i := FieldFor(q);
      assert SIMPLE_FIELDS[i] <= q;
    }
  }

  lemma FieldIsFilledIn(i: nat, q: Position)
    requires i < |SIMPLE_FIELDS| && SIMPLE_FIELDS[i] <= q
    ensures FilledIn(q)
  {
    assert q[0] == SIMPLE_FIELDS[i][0];
    if |SIMPLE_FIELDS[i]| > 1 { assert q[1] == SIMPLE_FIELDS[i][1]; }
  }

  lemma FieldFor(q: Position) returns (i: nat)
    requires FilledIn(q)
    ensures i < |SIMPLE_FIELDS| && SIMPLE_FIELDS[i] <= q
  {
    if ["spec", "selector", "matchLabels", "controller-uid"] <= q {
      return 14;
    } else if ["spec", "template", "metadata", "labels", "controller-uid"] <= q {
      return 17;
    } else if ["spec", "template", "metadata", "creationTimestamp"] <= q {
      return 16;
    } else if ["spec", "jobTemplate", "metadata", "creationTimestamp"] <= q {
      return 12;
    } else if ["spec", "jobTemplate", "spec", "template", "metadata", "creationTimestamp"] <= q {
      return 13;
    }
    var field := if q[0] == "metadata" || q[0] == "spec" then [q[0], q[1]] else [q[0]];
    i := if q[0] == "groupNames" then 0 else if q[0] == "imagePullSecrets" then 1 else if q[0] == "secrets" then 9
    else if q[0] == "status" then 19 else if q[0] == "userNames" then 20
    else if q[0] == "metadata" then
      (if q[1] == "creationTimestamp" then 2 else if q[1] == "generation" then 3 else if q[1] == "managedFields" then 4
       else if q[1] == "namespace" then 5 else if q[1] == "resourceVersion" then 6 else if q[1] == "selfLink" then 7
       else 8)
    else if q[1] == "clusterIP" then 10 else if q[1] == "clusterIPs" then 11 else if q[1] == "tags" then 15 else 18;
    assert SIMPLE_FIELDS[i] == field;
  }

  ghost predicate WithoutFields(j: Json, cur: Json, fields: seq<Position>) {
    forall q :: LabelAt(cur, q) == if AtOrBelow(fields, q) then None else LabelAt(j, q)
  }

  /** A position whose last token is not an index is deleted when it is there. */
  lemma {:induction false} DeleteMember(cur: Json, f: Position)
    requires f != [] && NotAnIndex(f[|f| - 1])
    ensures Delete(cur, f).Some? <==> Has(cur, f)
  {
    DeleteEffect(cur, f);
    GetLast(cur, f);
  }

  lemma {:induction false} WithoutNextField(j: Json, cur: Json, fields: seq<Position>, f: Position)
    requires WithoutFields(j, cur, fields) && f != [] && NotAnIndex(f[|f| - 1])
    ensures var edited := Delete(cur, f);
            WithoutFields(j, if edited.Some? then edited.value else cur, fields + [f])
  {
    DeleteMember(cur, f);
    DeleteEffect(cur, f);
    var edited, all := Delete(cur, f), fields + [f];
    var cur' := if edited.Some? then edited.value else cur;
    forall q ensures LabelAt(cur', q) == if AtOrBelow(all, q) then None else LabelAt(j, q) {
      assert AtOrBelow(fields, q) ==> AtOrBelow(all, q) by {
        if AtOrBelow(fields, q) {
          var i :| 0 <= i < |fields| && fields[i] <= q;
          assert all[i] <= q;
        }
      }
      assert all[|fields|] == f;
      if f <= q && edited.None? && Has(cur, q) { GetPrefix(cur, f, q); }
    }
  }

  // ---- the regular expression ----

  lemma {:induction false} DigitRunIs(ds: string, rest: string)
    requires AllDigits(ds) && (rest == "" || !('0' <= rest[0] <= '9'))
    ensures DigitRun(ds + rest) == |ds|
  {
    if ds == "" {
      assert ds + rest == rest;
    } else {
      assert (ds + rest)[1..] == ds[1..] + rest;
      DigitRunIs(ds[1..], rest);
    }
  }

  lemma MatchParts(path: string)
    requires MatchesRegexField(path)
    ensures exists ds: string, more: string :: AllDigits(ds) && path == TRIGGERS_HEAD + ds + TRIGGERS_TAIL + more
  {
    hide TRIGGERS_HEAD, TRIGGERS_TAIL, AllDigits;
    var rest := path[|TRIGGERS_HEAD|..];
    var n := DigitRun(rest);
    var more := rest[n..][|TRIGGERS_TAIL|..];
    assert rest[n..] == TRIGGERS_TAIL + more;
    assert rest == rest[..n] + rest[n..];
    assert path == TRIGGERS_HEAD + rest;
    assert path == TRIGGERS_HEAD + rest[..n] + TRIGGERS_TAIL + more;
  }

  lemma PartsMatch(ds: string, more: string)
    requires AllDigits(ds)
    ensures MatchesRegexField(TRIGGERS_HEAD + ds + TRIGGERS_TAIL + more)
  {
    var path := TRIGGERS_HEAD + ds + TRIGGERS_TAIL + more;
    var rest := path[|TRIGGERS_HEAD|..];
    assert rest == ds + (TRIGGERS_TAIL + more);
    DigitRunIs(ds, TRIGGERS_TAIL + more);
    assert rest[|ds|..] == TRIGGERS_TAIL + more;
  }

  /** Whatever is below a matching path matches as well. */
  lemma MatchesDown(x: string, y: string)
    requires MatchesRegexField(x) && x <= y
    ensures MatchesRegexField(y)
  {
    hide MatchesRegexField, TRIGGERS_HEAD, TRIGGERS_TAIL, AllDigits;
    MatchParts(x);
    var ds: string, more: string :| AllDigits(ds) && x == TRIGGERS_HEAD + ds + TRIGGERS_TAIL + more;
    assert y == x + y[|x|..];
    assert y == TRIGGERS_HEAD + ds + TRIGGERS_TAIL + (more + y[|x|..]);
    PartsMatch(ds, more + y[|x|..]);
  }

  lemma {:induction false} EscPlain(s: string)
    requires '~' !in s && '/' !in s
    ensures JsonPointerPath(s) == s
  {
    if s != "" {
      EscStep(s);
      EscPlain(s[1..]);
    }
  }

  lemma EncPlain(k: string, rest: Position)
    requires '~' !in k && '/' !in k
    ensures Enc([k] + rest) == "/" + k + Enc(rest)
  {
    EscPlain(k);
    assert ([k] + rest)[1..] == rest;
  }

  function TriggerImage(ds: string): Position {
    ["spec", "triggers", ds, "imageChangeParams", "lastTriggeredImage"]
  }

  predicate Plain(s: string) {
    '~' !in s && '/' !in s
  }

  lemma EncFive(a: string, b: string, c: string, d: string, e: string)
    requires Plain(a) && Plain(b) && Plain(c) && Plain(d) && Plain(e)
    ensures Enc([a, b, c, d, e]) == "/" + a + ("/" + b + ("/" + c + ("/" + d + ("/" + e + ""))))
  {
    EncPlain(e, []);
    EncPlain(d, [e]);
    EncPlain(c, [d, e]);
    EncPlain(b, [c, d, e]);
    EncPlain(a, [b, c, d, e]);
    assert [e] == [e] + [] && [d, e] == [d] + [e] && [c, d, e] == [c] + [d, e];
    assert [b, c, d, e] == [b] + [c, d, e] && [a, b, c, d, e] == [a] + [b, c, d, e];
    assert Enc([]) == "";
  }

  lemma Regroup(a: string, b: string, c: string, d: string, e: string)
    ensures "/" + a + ("/" + b + ("/" + c + ("/" + d + ("/" + e + "")))) ==
            ("/" + a + "/" + b + "/") + c + ("/" + d + "/" + e)
  {
  }

  lemma TriggerPieces()
    ensures "/" + "spec" + "/" + "triggers" + "/" == TRIGGERS_HEAD
    ensures "/" + "imageChangeParams" + "/" + "lastTriggeredImage" == TRIGGERS_TAIL
  {
  }

  lemma EncTriggerImage(ds: string)
    requires AllDigits(ds)
    ensures Enc(TriggerImage(ds)) == TRIGGERS_HEAD + ds + TRIGGERS_TAIL
  {
    hide Enc;
    EncFive("spec", "triggers", ds, "imageChangeParams", "lastTriggeredImage");
    Regroup("spec", "triggers", ds, "imageChangeParams", "lastTriggeredImage");
    TriggerPieces();
  }

  /** The topmost matching position above a matching one is five tokens deep and names an object member. */
  lemma MatchingTop(q: Position)
    requires MatchesRegexField(Enc(q))
    ensures |q| >= 5 && MatchesRegexField(Enc(q[..5])) && NotAnIndex(q[4])
  {
    hide Enc;
    MatchParts(Enc(q));
    var ds: string, more: string :| AllDigits(ds) && Enc(q) == TRIGGERS_HEAD + ds + TRIGGERS_TAIL + more;
    EncTriggerImage(ds);
    BelowTriggerImage(ds, q);
    PartsMatch(ds, "");
    assert Enc(TriggerImage(ds)) == TRIGGERS_HEAD + ds + TRIGGERS_TAIL + "";
    MatchesDown(Enc(TriggerImage(ds)), Enc(q[..5]));
  }

  lemma BelowTriggerImage(ds: string, q: Position)
    requires Enc(TriggerImage(ds)) <= Enc(q)
    ensures |q| >= 5 && Enc(TriggerImage(ds)) <= Enc(q[..5]) && NotAnIndex(q[4])
  {
    hide Enc, JsonPointerPath;
    var m := TriggerImage(ds);
    PrefixMeaning(m, q);
    PrefixMeaning(m, q[..5]);
    assert Parent(m) == m[..4] && m[..4] <= q && m[..4] <= q[..5] && q[..5][4] == q[4];
    EscPlain("lastTriggeredImage");
    NoIndexBegins("lastTriggeredImage", q[4]);
  }

  lemma NoIndexBegins(start: string, token: string)
    requires start != "" && start[0] != '~' && start[0] != '/' && !('0' <= start[0] <= '9')
    requires start <= JsonPointerPath(token)
    ensures NotAnIndex(token)
  {
    hide JsonPointerPath;
    if token == "" {
      NothingToEscape();
    } else {
      EscStep(token);
      assert JsonPointerPath(token)[0] == start[0];
    }
  }

  // ---- removal of the matching paths ----

  /** One of the paths done so far matches and is q or above it. */
  ghost predicate GoneBy(done: seq<string>, q: Position) {
    exists n :: 0 < n <= |q| && Enc(q[..n]) in done && MatchesRegexField(Enc(q[..n]))
  }

  ghost predicate WithoutMatches(j: Json, cur: Json, done: seq<string>) {
    forall q :: LabelAt(cur, q) == if GoneBy(done, q) then None else LabelAt(j, q)
  }

  lemma GoneByNext(done: seq<string>, s: string, q: Position)
    requires s == Enc(Dec(s)) && Dec(s) != []
    ensures GoneBy(done + [s], q) <==> GoneBy(done, q) || (MatchesRegexField(s) && Dec(s) <= q)
  {
    hide Enc, Dec, MatchesRegexField;
    if GoneBy(done, q) {
      var n :| 0 < n <= |q| && Enc(q[..n]) in done && MatchesRegexField(Enc(q[..n]));
      assert Enc(q[..n]) in done + [s];
    }
    if MatchesRegexField(s) && Dec(s) <= q {
      assert q[..|Dec(s)|] == Dec(s);
    }
    if GoneBy(done + [s], q) {
      var n :| 0 < n <= |q| && Enc(q[..n]) in done + [s] && MatchesRegexField(Enc(q[..n]));
      DecEnc(q[..n]);
    }
  }

  /** Deleting a matching path, in the order of a walk: it is either a member of an object or already gone
      with an ancestor, never an element of a list. */
  lemma DeleteMatch(j: Json, cur: Json, done: seq<string>, s: string)
    requires WithoutMatches(j, cur, done) && PointerInto(s, j) && AncestorsIn(Dec(s), [], done)
    ensures MatchesRegexField(s) ==>
              var edited := Delete(cur, Dec(s));
              WithoutMatches(j, if edited.Some? then edited.value else cur, done + [s])
    ensures !MatchesRegexField(s) ==> WithoutMatches(j, cur, done + [s])
  {
    hide Enc, Dec, MatchesRegexField, Get, Delete, GoneBy;
    var q := Dec(s);
    forall x { GoneByNext(done, s, x); }
    if MatchesRegexField(s) {
      DeleteEffect(cur, q);
      if !GoneBy(done, q) {
        TopMatch(done, q);
        GetLast(cur, q);
        assert LabelAt(cur, q) == LabelAt(j, q);
        LastIsMember(cur, q);
      } else {
        forall x | q <= x ensures GoneBy(done, x) { GoneByDown(done, q, x); }
        assert LabelAt(cur, q) == None;
      }
    }
  }

  lemma GoneByDown(done: seq<string>, q: Position, x: Position)
    requires GoneBy(done, q) && q <= x
    ensures GoneBy(done, x)
  {
    var n :| 0 < n <= |q| && Enc(q[..n]) in done && MatchesRegexField(Enc(q[..n]));
    assert x[..n] == q[..n];
  }

  lemma TopMatch(done: seq<string>, q: Position)
    requires MatchesRegexField(Enc(q)) && AncestorsIn(q, [], done)
    ensures GoneBy(done, q) || (q != [] && NotAnIndex(q[|q| - 1]))
  {
    hide Enc, MatchesRegexField;
    MatchingTop(q);
    if |q| > 5 { assert Enc(q[..5]) in done; } else { assert q[..5] == q; }
  }

  lemma {:induction false} LastIsMember(cur: Json, q: Position)
    requires q != [] && NotAnIndex(q[|q| - 1]) && Has(cur, q)
    ensures Has(cur, Parent(q)) && Get(cur, Parent(q)).value.Obj?
  {
    GetLast(cur, q);
  }

  /** The paths that do not match, in order. */
  function NotMatching(paths: seq<string>): seq<string> {
    if paths == [] then []
    else
      var init, s := NotMatching(paths[..|paths| - 1]), paths[|paths| - 1];
      if MatchesRegexField(s) then init else init + [s]
  }

  lemma {:induction false} NotMatchingRun(a: seq<string>, b: seq<string>)
    requires forall s :: s in b ==> !MatchesRegexField(s)
    ensures NotMatching(a + b) == NotMatching(a) + b
  {
    if b == [] {
      assert a + b == a;
    } else {
      var b' := b[..|b| - 1];
      assert (a + b)[..|a + b| - 1] == a + b';
      NotMatchingRun(a, b');
      assert b == b' + [b[|b| - 1]];
    }
  }

  /** The i-th kept path comes from the list, and the kept paths before it were before it in the list. */
  ghost predicate KeepsOrder(paths: seq<string>, kept: seq<string>, i: nat)
    requires i < |kept|
  {
    exists k :: 0 <= k < |paths| && kept[i] == paths[k] &&
                (forall s :: s in paths[..k] && !MatchesRegexField(s) ==> s in kept[..i])
  }

  lemma {:induction false} NotMatchingIs(paths: seq<string>)
    requires Distinct(paths)
    ensures Distinct(NotMatching(paths))
    ensures forall s :: s in NotMatching(paths) <==> s in paths && !MatchesRegexField(s)
    ensures forall i :: 0 <= i < |NotMatching(paths)| ==> KeepsOrder(paths, NotMatching(paths), i)
  {
    hide MatchesRegexField;
    if paths != [] {
      var init, last := paths[..|paths| - 1], paths[|paths| - 1];
      var kept, r := NotMatching(init), NotMatching(paths);
      NotMatchingIs(init);
      assert paths == init + [last];
      forall i | 0 <= i < |r| ensures KeepsOrder(paths, r, i) {
        if i < |kept| {
          OrderStillKept(init, kept, last, r[|kept|..], i);
        } else {
          assert paths[..|init|] == init && r[..i] == kept;
          assert r[i] == paths[|init|];
        }
      }
    }
  }

  lemma OrderStillKept(init: seq<string>, kept: seq<string>, last: string, more: seq<string>, i: nat)
    requires i < |kept| && KeepsOrder(init, kept, i)
    ensures KeepsOrder(init + [last], kept + more, i)
  {
    hide MatchesRegexField;
    var paths, r := init + [last], kept + more;
    var k :| 0 <= k < |init| && kept[i] == init[k] &&
             (forall s :: s in init[..k] && !MatchesRegexField(s) ==> s in kept[..i]);
    assert paths[..k] == init[..k] && r[..i] == kept[..i];
    assert r[i] == paths[k];
  }

  /** The remaining paths are a walk of the remaining document, without a matching position in it. */
  lemma {:induction false} WalkOfRemaining(paths: seq<string>, j: Json, j': Json)
    requires IsWalk(paths, j) && WithoutMatches(j, j', paths)
    ensures IsWalk(NotMatching(paths), j')
    ensures forall q :: LabelAt(j', q) == if MatchesRegexField(Enc(q)) then None else LabelAt(j, q)
  {
    hide Enc, Dec, MatchesRegexField;
    WalkIsExact(paths, j);
    forall q ensures LabelAt(j', q) == if MatchesRegexField(Enc(q)) then None else LabelAt(j, q) {
      GoneMeansMatching(paths, j, q);
    }
    var r := NotMatching(paths);
    NotMatchingIs(paths);
    forall i | 0 <= i < |r| ensures PointerInto(r[i], j') && AncestorsIn(Dec(r[i]), [], r[..i]) {
      assert r[i] in r && KeepsOrder(paths, r, i);
      RemainingPointer(paths, j, j', r, i);
    }
    forall q | q != [] && Has(j', q) ensures Enc(q) in r {
      assert LabelAt(j', q) == if MatchesRegexField(Enc(q)) then None else LabelAt(j, q);
      assert Has(j, q);
    }
    WalkIsExact(r, j');
  }

  lemma RemainingPointer(paths: seq<string>, j: Json, j': Json, r: seq<string>, i: nat)
    requires AllInto(paths, j) && ParentsFirst(paths, [])
    requires forall q :: LabelAt(j', q) == if MatchesRegexField(Enc(q)) then None else LabelAt(j, q)
    requires i < |r| && KeepsOrder(paths, r, i) && !MatchesRegexField(r[i])
    ensures PointerInto(r[i], j') && AncestorsIn(Dec(r[i]), [], r[..i])
  {
    hide Enc, Dec, MatchesRegexField;
    var k :| 0 <= k < |paths| && r[i] == paths[k] &&
             (forall s :: s in paths[..k] && !MatchesRegexField(s) ==> s in r[..i]);
    assert PointerInto(paths[k], j) && AncestorsIn(Dec(paths[k]), [], paths[..k]);
    AncestorsDoNotMatch(Dec(paths[k]), paths[..k], r[..i]);
    assert LabelAt(j', Dec(r[i])) == LabelAt(j, Dec(r[i]));
  }

  lemma AncestorsDoNotMatch(q: Position, before: seq<string>, kept: seq<string>)
    requires AncestorsIn(q, [], before) && !MatchesRegexField(Enc(q))
    requires forall s :: s in before && !MatchesRegexField(s) ==> s in kept
    ensures AncestorsIn(q, [], kept)
  {
    hide Enc, MatchesRegexField;
    forall n | 0 < n < |q| ensures Enc(q[..n]) in kept {
      EncPrefixOfDescendant(q[..n], q);
      if MatchesRegexField(Enc(q[..n])) { MatchesDown(Enc(q[..n]), Enc(q)); }
    }
  }

  lemma GoneMeansMatching(paths: seq<string>, j: Json, q: Position)
    requires AllOf(paths, j)
    ensures GoneBy(paths, q) ==> MatchesRegexField(Enc(q))
    ensures MatchesRegexField(Enc(q)) && Has(j, q) ==> GoneBy(paths, q)
  {
    hide Enc, MatchesRegexField;
    if GoneBy(paths, q) {
      var n :| 0 < n <= |q| && Enc(q[..n]) in paths && MatchesRegexField(Enc(q[..n]));
      EncPrefixOfDescendant(q[..n], q);
      MatchesDown(Enc(q[..n]), Enc(q));
    }
    if MatchesRegexField(Enc(q)) && Has(j, q) {
      MatchingTop(q);
      assert q[..|q|] == q;
    }
  }

  /** Nothing at or below the annotations is managed. */
  lemma NotManaged(q: Position)
    requires ["metadata", "annotations"] <= q
    ensures !IsManaged(q)
  {
    assert q[0] == "metadata" && q[1] == "annotations";
    if MatchesRegexField(Enc(q)) { MatchingSpec(q); }
    forall i | 0 <= i < |SIMPLE_FIELDS| ensures !(SIMPLE_FIELDS[i] <= q) {
      FieldsApart(i);
    }
  }

  lemma FieldsApart(i: nat)
    requires i < |SIMPLE_FIELDS|
    ensures SIMPLE_FIELDS[i][0] == "metadata" ==> |SIMPLE_FIELDS[i]| > 1 && SIMPLE_FIELDS[i][1] != "annotations"
    ensures SIMPLE_FIELDS[i] != []
  {
  }

  lemma MatchingSpec(q: Position)
    requires MatchesRegexField(Enc(q))
    ensures |q| > 0 && q[0] == "spec"
  {
    hide Enc;
    MatchParts(Enc(q));
    var ds: string, more: string :| AllDigits(ds) && Enc(q) == TRIGGERS_HEAD + ds + TRIGGERS_TAIL + more;
    EncTriggerImage(ds);
    PrefixMeaning(TriggerImage(ds), q);
  }
}
