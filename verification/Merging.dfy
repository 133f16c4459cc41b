/** The desired state of an updated resource, as one recursive function.

    The comparison of pkg/openshift/changeset.go never computes this function: it edits the template's
    document in place while it works through two path lists. Module Comparison proves that the edits add
    up to Merge. */
module Merging {
  import opened Wrappers
  import opened Decimal
  import opened Documents

  predicate EmptyCollection(j: Json) {
    j == Obj(map[]) || j == Arr([])
  }

  predicate IsCollection(j: Json) {
    j.Obj? || j.Arr?
  }

  function Tokens(j: Json): (tokens: set<string>)
    ensures forall k :: k in tokens <==> HasChild(j, k)
  {
    match j
    case Obj(fields) => fields.Keys
    case Arr(items) => IndexTokens(|items|)
    case _ => {}
  }

  function IndexTokens(n: nat): (tokens: set<string>)
    ensures forall k :: k in tokens <==> ParseIndex(k).Some? && ParseIndex(k).value < n
  {
    ParseOfItoa(n);
    set i | 0 <= i < n :: Itoa(i)
  }

  lemma ParseOfItoa(n: nat)
    ensures forall i :: 0 <= i < n ==> ParseIndex(Itoa(i)) == Some(i)
    ensures forall k :: ParseIndex(k).Some? ==> Itoa(ParseIndex(k).value) == k
  {
    forall i | 0 <= i < n ensures ParseIndex(Itoa(i)) == Some(i) { ParseItoa(i); }
    forall k | ParseIndex(k).Some? ensures Itoa(ParseIndex(k).value) == k { ItoaParse(k); }
  }

  /** Template t merged with platform p. The template decides, except that a member only it has is left
      out when it is the empty string, and that an empty collection only the platform has is taken over. */
  function Merge(t: Json, p: Json): Json
    decreases t
  {
    match t
    case Obj(fields) =>
      Obj(map k | k in fields.Keys + Tokens(p) && KeepsMember(fields, p, k) ::
            if k !in fields then Child(p, k)
            else if HasChild(p, k) then Merge(fields[k], Child(p, k))
            else fields[k])
    case Arr(items) =>
      Arr(seq(|items|, i requires 0 <= i < |items| =>
            if HasChild(p, Itoa(i)) then Merge(items[i], Child(p, Itoa(i))) else items[i]))
    case _ => t
  }

  predicate KeepsMember(fields: map<string, Json>, p: Json, k: string)
    requires k in fields || HasChild(p, k)
  {
    if k in fields then HasChild(p, k) || fields[k] != Str("") else EmptyCollection(Child(p, k))
  }

  // ---- the positions where template and platform part ----

  /** q is in a, and p has everything above it but not q itself. */
  predicate OnlyIn(a: Json, b: Json, q: Position) {
    q != [] && Has(a, q) && Has(b, Parent(q)) && !Has(b, q)
  }

  /** Positions whose value the comparison drops from the template. */
  predicate Dropped(t: Json, p: Json, q: Position) {
    OnlyIn(t, p, q) && Get(t, q) == Some(Str(""))
  }

  /** Positions which the comparison reports as added by the template. */
  predicate Added(t: Json, p: Json, q: Position) {
    OnlyIn(t, p, q) && Get(t, q) != Some(Str(""))
  }

  /** Positions whose empty collection the comparison copies into the template. */
  predicate Kept(t: Json, p: Json, q: Position) {
    OnlyIn(p, t, q) && EmptyCollection(Get(p, q).value)
  }

  predicate HoldsObject(j: Json, q: Position) {
    LabelAt(j, q) == Some(LObj)
  }

  /** No list element of the template is dropped. */
  ghost predicate DropsMembersOnly(t: Json, p: Json) {
    forall q :: Dropped(t, p, q) ==> HoldsObject(t, Parent(q))
  }

  /** Empty collections are copied into objects of the template only. */
  ghost predicate KeepsMembersOnly(t: Json, p: Json) {
    forall q :: Kept(t, p, q) ==> HoldsObject(t, Parent(q))
  }

  lemma OnlyInStep(a: Json, b: Json, q: Position)
    requires q != []
    ensures OnlyIn(a, b, q) <==>
            HasChild(a, q[0]) &&
            if |q| == 1 then !HasChild(b, q[0])
            else HasChild(b, q[0]) && OnlyIn(Child(a, q[0]), Child(b, q[0]), q[1..])
  {
    if |q| == 1 {
      assert q == [q[0]];
      GetChild(a, q[0]);
      GetChild(b, q[0]);
    } else {
      ParentOfTail(q);
    }
  }

  lemma StepInto(t: Json, p: Json, k: string, q: Position)
    requires q != [] && HasChild(t, k) && HasChild(p, k)
    ensures Dropped(t, p, [k] + q) <==> Dropped(Child(t, k), Child(p, k), q)
    ensures Kept(t, p, [k] + q) <==> Kept(Child(t, k), Child(p, k), q)
    ensures HoldsObject(t, Parent([k] + q)) <==> HoldsObject(Child(t, k), Parent(q))
  {
    OnlyInStep(t, p, [k] + q);
    OnlyInStep(p, t, [k] + q);
    assert ([k] + q)[1..] == q;
    assert Parent([k] + q) == [k] + Parent(q);
    assert ([k] + Parent(q))[1..] == Parent(q);
  }

  lemma MembersOnlyBelow(t: Json, p: Json, k: string)
    requires DropsMembersOnly(t, p) && KeepsMembersOnly(t, p)
    requires HasChild(t, k) && HasChild(p, k)
    ensures DropsMembersOnly(Child(t, k), Child(p, k)) && KeepsMembersOnly(Child(t, k), Child(p, k))
  {
    forall q | Dropped(Child(t, k), Child(p, k), q) ensures HoldsObject(Child(t, k), Parent(q)) {
      StepInto(t, p, k, q);
    }
    forall q | Kept(Child(t, k), Child(p, k), q) ensures HoldsObject(Child(t, k), Parent(q)) {
      StepInto(t, p, k, q);
    }
  }

  lemma {:induction false} ChildOfMerge(t: Json, p: Json, k: string)
    ensures t.Obj? && (k in t.fields || HasChild(p, k)) ==>
              (HasChild(Merge(t, p), k) <==> KeepsMember(t.fields, p, k))
    ensures t.Obj? && !(k in t.fields || HasChild(p, k)) ==> !HasChild(Merge(t, p), k)
    ensures !t.Obj? ==> (HasChild(Merge(t, p), k) <==> HasChild(t, k))
    ensures HasChild(Merge(t, p), k) ==>
              Child(Merge(t, p), k) ==
              if !HasChild(t, k) then Child(p, k)
              else if HasChild(p, k) then Merge(Child(t, k), Child(p, k))
              else Child(t, k)
  {
    if t.Arr? && HasChild(t, k) {
      ItoaParse(k);
    }
  }

  /** Merge, read position by position. */
  lemma {:induction false} MergeLabels(t: Json, p: Json, q: Position)
    requires DropsMembersOnly(t, p) && KeepsMembersOnly(t, p)
    ensures LabelAt(Merge(t, p), q) ==
            if Dropped(t, p, q) then None
            else if Kept(t, p, q) then LabelAt(p, q)
            else LabelAt(t, q)
    decreases |q|
  {
    if q != [] {
      var k := q[0];
      assert q == [k] + q[1..];
      ChildOfMerge(t, p, k);
      LabelStep(Merge(t, p), q);
      LabelStep(t, q);
      LabelStep(p, q);
      OnlyInStep(t, p, q);
      OnlyInStep(p, t, q);
      GetChild(t, k);
      GetChild(p, k);
      if |q| == 1 {
        assert Parent(q) == [];
        assert q == [k];
        assert Dropped(t, p, q) || Kept(t, p, q) ==> HoldsObject(t, Parent(q));
      } else if HasChild(t, k) && HasChild(p, k) {
        StepInto(t, p, k, q[1..]);
        MembersOnlyBelow(t, p, k);
        MergeLabels(Child(t, k), Child(p, k), q[1..]);
      }
    }
  }

  // ---- laws of Merge ----

  lemma {:induction false} MergeSelf(t: Json)
    ensures Merge(t, t) == t
    decreases t
  {
    forall k | HasChild(t, k) ensures Merge(Child(t, k), Child(t, k)) == Child(t, k) {
      MergeSelf(Child(t, k));
    }
    MergeUnchanged(t, t);
  }

  /** Merging leaves p alone when p only lacks members the merge drops, only has extra empty members, and
      merges to itself child by child. */
  lemma {:induction false} MergeUnchanged(t: Json, d: Json)
    requires t.Obj? ==> d.Obj? && forall k :: k in t.fields || k in d.fields ==>
                                                (KeepsMember(t.fields, d, k) <==> k in d.fields)
    requires t.Arr? ==> d.Arr? && |d.items| == |t.items|
    requires !IsCollection(t) ==> d == t
    requires forall k :: HasChild(t, k) && HasChild(d, k) ==> Merge(Child(t, k), Child(d, k)) == Child(d, k)
    ensures Merge(t, d) == d
  {
    if t.Obj? {
      var m := Merge(t, d);
      forall k ensures k in m.fields <==> k in d.fields { ChildOfMerge(t, d, k); }
      assert m.fields.Keys == d.fields.Keys;
      forall k | k in d.fields ensures m.fields[k] == d.fields[k] { ChildOfMerge(t, d, k); }
      assert m.fields == d.fields;
    } else if t.Arr? {
      var m := Merge(t, d);
      forall i | 0 <= i < |t.items| ensures m.items[i] == d.items[i] {
        ParseItoa(i);
        assert HasChild(t, Itoa(i)) && HasChild(d, Itoa(i));
      }
      assert m.items == d.items;
    }
  }

  /** Once the desired state is in the cluster, merging again changes nothing. */
  lemma {:induction false} MergeIdempotent(t: Json, p: Json)
    ensures Merge(t, Merge(t, p)) == Merge(t, p)
    decreases t
  {
    var d := Merge(t, p);
    forall k | HasChild(t, k) && HasChild(d, k) ensures Merge(Child(t, k), Child(d, k)) == Child(d, k) {
      ChildOfMerge(t, p, k);
      if HasChild(p, k) {
        MergeIdempotent(Child(t, k), Child(p, k));
      } else {
        MergeSelf(Child(t, k));
      }
    }
    if t.Obj? {
      forall k | k in t.fields || k in d.fields ensures KeepsMember(t.fields, d, k) <==> k in d.fields {
        ChildOfMerge(t, p, k);
      }
    }
    MergeUnchanged(t, d);
  }
}
