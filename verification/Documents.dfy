/** JSON documents as trees, and the three operations the tool performs on them through JSON pointers.

    A position is the list of decoded reference tokens of a pointer. Looking a position up follows
    section 4 of RFC 6901: a token names a member of an object, or is the canonical decimal index of a
    list element. */
module Documents {
  import opened Wrappers
  import opened Decimal

  datatype Json =
    | Null
    | Bool(b: bool)
    | Num(n: int)
    | Str(s: string)
    | Arr(items: seq<Json>)
    | Obj(fields: map<string, Json>)

  type Position = seq<string>

  predicate HasChild(j: Json, k: string) {
    match j
    case Obj(fields) => k in fields
    case Arr(items) => var i := ParseIndex(k); i.Some? && i.value < |items|
    case _ => false
  }

  function Child(j: Json, k: string): (c: Json)
    requires HasChild(j, k)
    ensures c < j
  {
    match j
    case Obj(fields) => fields[k]
    case Arr(items) => items[ParseIndex(k).value]
  }

  /** The document with one existing child, or a new object member, replaced. */
  function WithChild(j: Json, k: string, c: Json): Json
    requires HasChild(j, k) || j.Obj?
  {
    match j
    case Obj(fields) => Obj(fields[k := c])
    case Arr(items) => Arr(items[ParseIndex(k).value := c])
  }

  function Get(j: Json, p: Position): Option<Json>
    decreases |p|
  {
    if p == [] then Some(j)
    else if HasChild(j, p[0]) then Get(Child(j, p[0]), p[1..])
    else None
  }

  predicate Has(j: Json, p: Position) {
    Get(j, p).Some?
  }

  /** Setting a position fails when its parent is missing, is a scalar, or is a list too short for it. */
  function Set(j: Json, p: Position, v: Json): Option<Json>
    decreases |p|
  {
    if p == [] then Some(j)
    else if |p| == 1 then
      if j.Obj? || HasChild(j, p[0]) then Some(WithChild(j, p[0], v)) else None
    else if HasChild(j, p[0]) then
      var c := Set(Child(j, p[0]), p[1..], v);
      if c.Some? then Some(WithChild(j, p[0], c.value)) else None
    else None
  }

  /** Deleting a position removes an object member. It fails when there is no such member. */
  function Delete(j: Json, p: Position): Option<Json>
    decreases |p|
  {
    if p == [] then Some(j)
    else if |p| == 1 then
      if j.Obj? && p[0] in j.fields then Some(Obj(j.fields - {p[0]})) else None
    else if HasChild(j, p[0]) then
      var c := Delete(Child(j, p[0]), p[1..]);
      if c.Some? then Some(WithChild(j, p[0], c.value)) else None
    else None
  }

  /** What one node says about itself: its scalar value, or its kind and length as a container. */
  datatype Label = LNull | LBool(b: bool) | LNum(n: int) | LStr(s: string) | LArr(length: nat) | LObj

  function LabelOf(j: Json): Label {
    match j
    case Null => LNull
    case Bool(b) => LBool(b)
    case Num(n) => LNum(n)
    case Str(s) => LStr(s)
    case Arr(items) => LArr(|items|)
    case Obj(_) => LObj
  }

  /** The label at a position. A document is determined by its labels (see SameLabels). */
  function LabelAt(j: Json, p: Position): Option<Label> {
    var v := Get(j, p);
    if v.Some? then Some(LabelOf(v.value)) else None
  }

  function Parent(p: Position): Position
    requires p != []
  {
    p[..|p| - 1]
  }

  lemma RootIsThere(j: Json)
    ensures Get(j, []) == Some(j)
  {
  }

  lemma {:induction false} GetChild(j: Json, k: string)
    ensures Has(j, [k]) <==> HasChild(j, k)
    ensures HasChild(j, k) ==> Get(j, [k]).value == Child(j, k)
  {
    assert [k][1..] == [];
    if HasChild(j, k) {
      assert Get(j, [k]) == Get(Child(j, k), []);
    }
  }

  lemma LabelStep(j: Json, q: Position)
    requires q != []
    ensures LabelAt(j, q) == if HasChild(j, q[0]) then LabelAt(Child(j, q[0]), q[1..]) else None
  {
  }

  lemma ParentOfTail(p: Position)
    requires |p| > 1
    ensures Parent(p) == [p[0]] + Parent(p[1..])
    ensures Parent(p) != [] && Parent(p)[0] == p[0] && Parent(p)[1..] == Parent(p[1..])
  {
  }

  lemma {:induction false} GetConcat(j: Json, p: Position, q: Position)
    ensures Get(j, p + q) == if Has(j, p) then Get(Get(j, p).value, q) else None
    decreases |p|
  {
    if p == [] {
      assert p + q == q;
    } else if HasChild(j, p[0]) {
      assert (p + q)[1..] == p[1..] + q;
      GetConcat(Child(j, p[0]), p[1..], q);
    }
  }

  /** Ancestors of a position that exists exist and are containers. */
  lemma {:induction false} GetPrefix(j: Json, p: Position, q: Position)
    requires p <= q && Has(j, q)
    ensures Has(j, p)
    ensures p < q ==> HasChild(Get(j, p).value, q[|p|])
  {
    assert q == p + q[|p|..];
    GetConcat(j, p, q[|p|..]);
  }

  /** A position exists when its parent exists and has the last token as a child. */
  lemma {:induction false} GetLast(j: Json, p: Position)
    requires p != []
    ensures Has(j, p) <==> Has(j, Parent(p)) && HasChild(Get(j, Parent(p)).value, p[|p| - 1])
    ensures Has(j, p) ==> Get(j, p).value == Child(Get(j, Parent(p)).value, p[|p| - 1])
  {
    assert p == Parent(p) + [p[|p| - 1]];
    GetConcat(j, Parent(p), [p[|p| - 1]]);
  }

  lemma ChildOfWithChild(j: Json, k: string, c: Json, k': string)
    requires HasChild(j, k) || j.Obj?
    ensures HasChild(WithChild(j, k, c), k') <==> k' == k || HasChild(j, k')
    ensures HasChild(WithChild(j, k, c), k') ==>
              Child(WithChild(j, k, c), k') == if k' == k then c else Child(j, k')
  {
    if j.Arr? && HasChild(j, k') && ParseIndex(k') == ParseIndex(k) {
      ItoaParse(k);
      ItoaParse(k');
    }
  }

  lemma {:induction false} SameLabels(a: Json, b: Json)
    requires forall p :: LabelAt(a, p) == LabelAt(b, p)
    ensures a == b
    decreases a
  {
    assert LabelAt(a, []) == LabelAt(b, []);
    forall k | HasChild(a, k) || HasChild(b, k)
      ensures HasChild(a, k) && HasChild(b, k) && Child(a, k) == Child(b, k)
    {
      assert LabelAt(a, [k]) == LabelAt(b, [k]);
      GetChild(a, k);
      GetChild(b, k);
      forall p ensures LabelAt(Child(a, k), p) == LabelAt(Child(b, k), p) {
        assert ([k] + p)[1..] == p;
        assert LabelAt(a, [k] + p) == LabelAt(b, [k] + p);
      }
      SameLabels(Child(a, k), Child(b, k));
    }
    if a.Obj? {
      assert a.fields.Keys == b.fields.Keys by {
        forall k ensures k in a.fields <==> k in b.fields {
          assert HasChild(a, k) <==> HasChild(b, k);
        }
      }
      forall k | k in a.fields ensures a.fields[k] == b.fields[k] { assert HasChild(a, k); }
      assert a.fields == b.fields;
    } else if a.Arr? {
      forall i | 0 <= i < |a.items| ensures a.items[i] == b.items[i] {
        ParseItoa(i);
        assert HasChild(a, Itoa(i));
      }
    }
  }

  /** Set succeeds exactly when the parent is an object or already has the position, and then changes
      the document below that position only. */
  lemma {:induction false} SetEffect(j: Json, p: Position, v: Json)
    requires p != []
    ensures Set(j, p, v).Some? <==>
            Has(j, Parent(p)) && (Get(j, Parent(p)).value.Obj? || Has(j, p))
    ensures Set(j, p, v).Some? ==> forall q ::
                LabelAt(Set(j, p, v).value, q) == if p <= q then LabelAt(v, q[|p|..]) else LabelAt(j, q)
    decreases |p|
  {
    if |p| == 1 {
      GetLast(j, p);
    } else { ParentOfTail(p); }
    if |p| == 1 {
    } else if HasChild(j, p[0]) {
      SetEffect(Child(j, p[0]), p[1..], v);
      ParentOfTail(p);
    }
    if Set(j, p, v).Some? {
      var c := if |p| == 1 then v else Set(Child(j, p[0]), p[1..], v).value;
      forall q
        ensures LabelAt(Set(j, p, v).value, q) == if p <= q then LabelAt(v, q[|p|..]) else LabelAt(j, q)
      {
        if q != [] {
          LabelStep(j, q);
          LabelStep(Set(j, p, v).value, q);
          ChildOfWithChild(j, p[0], c, q[0]);
          assert p <= q <==> p[0] == q[0] && p[1..] <= q[1..];
          if p <= q { assert q[1..][|p| - 1..] == q[|p|..]; }
          assert |p| == 1 && q[0] == p[0] ==> p <= q;
        }
      }
    }
  }

  /** Delete succeeds exactly on existing members of objects, and then removes what is below only. */
  lemma {:induction false} DeleteEffect(j: Json, p: Position)
    requires p != []
    ensures Delete(j, p).Some? <==> Has(j, p) && Get(j, Parent(p)).Some? && Get(j, Parent(p)).value.Obj?
    ensures Delete(j, p).Some? ==> forall q ::
                LabelAt(Delete(j, p).value, q) == if p <= q then None else LabelAt(j, q)
    decreases |p|
  {
    if |p| == 1 {
      GetLast(j, p);
    } else { ParentOfTail(p); }
    if |p| == 1 {
    } else if HasChild(j, p[0]) {
      DeleteEffect(Child(j, p[0]), p[1..]);
      ParentOfTail(p);
    }
    if Delete(j, p).Some? {
      forall q
        ensures LabelAt(Delete(j, p).value, q) == if p <= q then None else LabelAt(j, q)
      {
        if q != [] {
          LabelStep(j, q);
          LabelStep(Delete(j, p).value, q);
          assert p <= q <==> p[0] == q[0] && p[1..] <= q[1..];
          if |p| > 1 {
            ChildOfWithChild(j, p[0], Delete(Child(j, p[0]), p[1..]).value, q[0]);
          }
        }
      }
    }
  }
}
