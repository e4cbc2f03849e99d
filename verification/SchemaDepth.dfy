/**
 The recursion limit decides whether the rewriter returns, never what it returns.
 */
module SchemaDepth {
  import opened Json
  import opened SchemaNormalizer

  lemma {:induction false} NodeDepth(root: Json, p: seq<nat>, node: Json, l: nat, m: nat)
    requires ValidPath(root, p) && NormNode(root, p, node, l) != Err(RecursionLimit) && l <= m
    ensures NormNode(root, p, node, m) == NormNode(root, p, node, l)
    decreases l, 0
  {
    match node
    case Obj(f) => DictDepth(root, p, f, l - 1, m - 1);
    case Arr(_) => MembersDepth(root, p, node, 0, l - 1, m - 1);
    case _ =>
  }

  lemma {:induction false} MembersDepth(root: Json, p: seq<nat>, c: Json, i: nat, l: nat, m: nat)
    requires ValidPath(root, p) && NormMembers(root, p, c, i, l) != Err(RecursionLimit) && l <= m
    ensures NormMembers(root, p, c, i, m) == NormMembers(root, p, c, i, l)
    decreases l, 1, Size(c) - i
  {
    if i < Size(c) {
      PutChild(root, p, c, i, Child(c, i));
      var v := NormNode(PutAt(root, p, c), p + [i], Child(c, i), l);
      NodeDepth(PutAt(root, p, c), p + [i], Child(c, i), l, m);
      if v.Ok? { MembersDepth(root, p, SetChild(c, i, v.value), i + 1, l, m); }
    }
  }

  lemma {:induction false} KeyDepth(root: Json, p: seq<nat>, f: Fields, k: Name, l: nat, m: nat)
    requires ValidPath(root, p) && NormKey(root, p, f, k, l) != Err(RecursionLimit) && l <= m
    ensures NormKey(root, p, f, k, m) == NormKey(root, p, f, k, l)
    decreases l, 2
  {
    if Has(f, k) {
      var i, v := Index(f, k), Value(f, k);
      PutChild(root, p, Obj(f), i, v);
      if k == Items {
        if !v.Null? { NodeDepth(PutAt(root, p, Obj(f)), p + [i], v, l, m); }
      } else if VisitsMembers(k, v) {
        MembersDepth(PutAt(root, p, Obj(f)), p + [i], v, 0, l, m);
      }
    }
  }

  lemma {:induction false} FirstDepth(root: Json, p: seq<nat>, f: Fields, l: nat, m: nat)
    requires ValidPath(root, p) && NormFirst(root, p, f, l) != Err(RecursionLimit) && l <= m
    ensures NormFirst(root, p, f, m) == NormFirst(root, p, f, l)
    decreases l, 3
  {
    KeyDepth(root, p, f, Properties, l, m);
    var f1 := NormKey(root, p, f, Properties, l);
    if f1.Ok? {
      KeyDepth(root, p, f1.value, Items, l, m);
      var f2 := NormKey(root, p, f1.value, Items, l);
      if f2.Ok? {
        KeyDepth(root, p, f2.value, Defs, l, m);
        var f3 := NormKey(root, p, f2.value, Defs, l);
        if f3.Ok? { KeyDepth(root, p, f3.value, Definitions, l, m); }
      }
    }
  }

  lemma {:induction false} LastDepth(root: Json, p: seq<nat>, f: Fields, l: nat, m: nat)
    requires ValidPath(root, p) && NormLast(root, p, f, l) != Err(RecursionLimit) && l <= m
    ensures NormLast(root, p, f, m) == NormLast(root, p, f, l)
    decreases l, 3
  {
    KeyDepth(root, p, f, AnyOf, l, m);
    var f1 := NormKey(root, p, f, AnyOf, l);
    if f1.Ok? {
      KeyDepth(root, p, f1.value, OneOf, l, m);
      var f2 := NormKey(root, p, f1.value, OneOf, l);
      if f2.Ok? { KeyDepth(root, p, f2.value, AllOf, l, m); }
    }
  }

  lemma {:induction false} TailDepth(root: Json, p: seq<nat>, h: Fields, l: nat, m: nat)
    requires ValidPath(root, p) && NormTail(root, p, h, l) != Err(RecursionLimit) && l <= m
    ensures NormTail(root, p, h, m) == NormTail(root, p, h, l)
    decreases l, 4
  {
    if SingleAllOf(h) {
      if Member(h).Obj? { NodeDepth(root, p, Obj(Collapsed(h, Member(h).fields)), l, m); }
    } else {
      LastDepth(root, p, h, l, m);
    }
  }

  lemma {:induction false} DictDepth(root: Json, p: seq<nat>, f: Fields, l: nat, m: nat)
    requires ValidPath(root, p) && NormDict(root, p, f, l) != Err(RecursionLimit) && l <= m
    ensures NormDict(root, p, f, m) == NormDict(root, p, f, l)
    decreases l, 6
  {
    var g := Drop(f, {Default});
    if Inlines(g) {
      var target := Resolve(PutAt(root, p, Obj(g)), StrRef(g).value);
      if target.Ok? { NodeDepth(root, p, Obj(Inlined(g, target.value)), l, m); }
    } else {
      var h := NormFirst(root, p, Shaped(g), l);
      FirstDepth(root, p, Shaped(g), l, m);
      if h.Ok? { TailDepth(root, p, h.value, l, m); }
    }
  }

  /** A run that does not hit the limit ends the same way under every larger limit. */
  lemma MoreDepth(schema: Json, l: nat, m: nat)
    requires Normalize(schema, l) != Err(RecursionLimit) && l <= m
    ensures Normalize(schema, m) == Normalize(schema, l)
  {
    NodeDepth(schema, [], schema, l, m);
  }
}
