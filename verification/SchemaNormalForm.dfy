/**
 What a successful rewrite leaves behind, for every schema and every recursion limit, and why
 rewriting once more changes nothing.
 */
module SchemaNormalForm {
  import opened Options
  import opened Json
  import opened SchemaNormalizer

  const FIRST_KEYS: set<Name> := {Properties, Items, Defs, Definitions}
  const SUBSCHEMA_KEYS: set<Name> := {Properties, Items, Defs, Definitions, AnyOf, OneOf, AllOf}

  /** What holds of a rewritten dictionary itself, apart from its subschemas. */
  predicate TopNormal(f: Fields) {
    && !Has(f, Default)
    && !Inlines(f)
    && (ObjectLike(f) ==> Has(f, AdditionalProperties))
    && (Has(f, Properties) && Value(f, Properties).Obj? ==>
          Get(f, Required) == Some(Arr(Names(Value(f, Properties).fields))))
    && !SingleAllOf(f)
  }

  /** Every position the rewriter visits is `TopNormal`, and visiting them nests at most `d` deep. */
  predicate Normal(n: Json, d: nat)
    decreases n, 1
  {
    && d > 0
    && match n
       case Obj(f) => TopNormal(f) && forall k | k in SUBSCHEMA_KEYS :: NormalUnder(n, f, k, d - 1)
       case Arr(_) => forall i | 0 <= i < Size(n) :: Normal(Child(n, i), d - 1)
       case _ => true
  }

  predicate NormalUnder(n: Json, f: Fields, k: Name, d: nat)
    requires n == Obj(f)
    decreases n, 0
  {
    Has(f, k) ==>
      var v := f[Index(f, k)].value;
      if k == Items then v.Null? || Normal(v, d)
      else VisitsMembers(k, v) ==> forall i | 0 <= i < Size(v) :: Normal(Child(v, i), d)
  }

  lemma {:induction false} NormalDeeper(n: Json, d: nat, e: nat)
    requires Normal(n, d) && d <= e
    ensures Normal(n, e)
    decreases n
  {
    match n
    case Obj(f) =>
      forall k | k in SUBSCHEMA_KEYS ensures NormalUnder(n, f, k, e - 1) {
        UnderDeeper(n, f, k, d - 1, e - 1);
      }
    case Arr(xs) => ListDeeper(n, d, e);
    case _ =>
  }

  lemma {:induction false} ListDeeper(n: Json, d: nat, e: nat)
    requires n.Arr? && Normal(n, d) && d <= e
    ensures Normal(n, e)
    decreases n, 0
  {
    forall i | 0 <= i < Size(n) ensures Normal(Child(n, i), e - 1) {
      NormalDeeper(Child(n, i), d - 1, e - 1);
    }
  }

  lemma {:induction false} UnderDeeper(n: Json, f: Fields, k: Name, d: nat, e: nat)
    requires n == Obj(f) && NormalUnder(n, f, k, d) && d <= e
    ensures NormalUnder(n, f, k, e)
    decreases n, 0
  {
    if Has(f, k) {
      var v := f[Index(f, k)].value;
      if k == Items {
        if !v.Null? { NormalDeeper(v, d, e); }
      } else if VisitsMembers(k, v) {
        forall i | 0 <= i < Size(v) ensures Normal(Child(v, i), e) {
          NormalDeeper(Child(v, i), d, e);
        }
      }
    }
  }

  // ---- normal form -------------------------------------------------------------------------

  /** Whatever was resolved along the way, a rewritten node is in normal form. */
  lemma {:induction false} NormNodeNormal(root: Json, p: seq<nat>, node: Json, limit: nat)
    requires ValidPath(root, p)
    requires NormNode(root, p, node, limit).Ok?
    ensures Normal(NormNode(root, p, node, limit).value, limit)
    decreases limit, 0
  {
    var r := NormNode(root, p, node, limit).value;
    if node.Obj? {
      NormDictNormal(root, p, node.fields, limit - 1);
    } else if node.Arr? {
      NormMembersNormal(root, p, node, 0, limit - 1);
      MembersShape(root, p, node, 0, limit - 1);
      ArrNormal(r, limit);
    } else {
      assert r == node;
      ScalarNormal(node, limit);
    }
  }

  lemma ArrNormal(n: Json, d: nat)
    requires n.Arr? && d > 0 && forall j | 0 <= j < Size(n) :: Normal(Child(n, j), d - 1)
    ensures Normal(n, d)
  {
  }

  lemma ScalarNormal(n: Json, d: nat)
    requires !n.Arr? && !n.Obj? && d > 0
    ensures Normal(n, d)
  {
  }

  lemma {:induction false} NormMembersNormal(root: Json, p: seq<nat>, c: Json, i: nat, limit: nat)
    requires ValidPath(root, p) && i <= Size(c)
    requires NormMembers(root, p, c, i, limit).Ok?
    requires forall j | 0 <= j < i :: Normal(Child(c, j), limit)
    ensures var r := NormMembers(root, p, c, i, limit).value;
            forall j | 0 <= j < Size(r) :: Normal(Child(r, j), limit)
    decreases limit, 1, Size(c) - i
  {
    if i < Size(c) {
      PutChild(root, p, c, i, Child(c, i));
      NormNodeNormal(PutAt(root, p, c), p + [i], Child(c, i), limit);
      var v := NormNode(PutAt(root, p, c), p + [i], Child(c, i), limit).value;
      NormMembersNormal(root, p, SetChild(c, i, v), i + 1, limit);
    }
  }

  /** Rewriting one keyword leaves the others alone and the rewritten one in normal form. */
  lemma {:induction false} NormKeyNormal(root: Json, p: seq<nat>, f: Fields, k: Name, limit: nat)
    requires ValidPath(root, p)
    requires NormKey(root, p, f, k, limit).Ok?
    ensures var g := NormKey(root, p, f, k, limit).value; NormalUnder(Obj(g), g, k, limit)
    decreases limit, 2, 0
  {
    KeyFrameGet(root, p, f, k, limit, k);
    if Has(f, k) {
      var i, v := Index(f, k), Value(f, k);
      PutChild(root, p, Obj(f), i, v);
      if k == Items {
        if !v.Null? { NormNodeNormal(PutAt(root, p, Obj(f)), p + [i], v, limit); }
      } else if VisitsMembers(k, v) {
        NormMembersNormal(PutAt(root, p, Obj(f)), p + [i], v, 0, limit);
      }
    }
  }

  lemma {:induction false} NormDictNormal(root: Json, p: seq<nat>, f: Fields, limit: nat)
    requires ValidPath(root, p)
    requires NormDict(root, p, f, limit).Ok?
    ensures Normal(NormDict(root, p, f, limit).value, limit + 1)
    decreases limit, 6
  {
    var g := Drop(f, {Default});
    DropGet(f, {Default}, Default);
    if Inlines(g) {
      var target := Resolve(PutAt(root, p, Obj(g)), StrRef(g).value).value;
      NormNodeNormal(root, p, Obj(Inlined(g, target)), limit);
      NormalDeeper(NormDict(root, p, f, limit).value, limit, limit + 1);
    } else {
      ShapedTop(g);
      FirstKeysNormal(root, p, Shaped(g), limit);
      NormTailNormal(root, p, NormFirst(root, p, Shaped(g), limit).value, limit);
    }
  }

  lemma {:induction false} NormTailNormal(root: Json, p: seq<nat>, h: Fields, limit: nat)
    requires ValidPath(root, p) && Shapely(h) && Done(h, FIRST_KEYS, limit)
    requires NormTail(root, p, h, limit).Ok?
    ensures Normal(NormTail(root, p, h, limit).value, limit + 1)
    decreases limit, 4
  {
    if SingleAllOf(h) {
      NormNodeNormal(root, p, Obj(Collapsed(h, Member(h).fields)), limit);
      NormalDeeper(NormTail(root, p, h, limit).value, limit, limit + 1);
    } else {
      LastKeysNormal(root, p, h, limit);
    }
  }

  /** `TopNormal` without the clause about `allOf`. */
  predicate Shapely(f: Fields) {
    && !Has(f, Default)
    && !Inlines(f)
    && (ObjectLike(f) ==> Has(f, AdditionalProperties))
    && (Has(f, Properties) && Value(f, Properties).Obj? ==>
          Get(f, Required) == Some(Arr(Names(Value(f, Properties).fields))))
  }

  predicate Done(f: Fields, ks: set<Name>, d: nat) {
    forall k | k in ks :: NormalUnder(Obj(f), f, k, d)
  }

  /** One more keyword rewritten. */
  lemma {:induction false} KeyDone(root: Json, p: seq<nat>, f: Fields, k: Name, limit: nat, ks: set<Name>)
    requires ValidPath(root, p) && Shapely(f) && Done(f, ks, limit) && k in SUBSCHEMA_KEYS
    requires NormKey(root, p, f, k, limit).Ok?
    ensures var g := NormKey(root, p, f, k, limit).value; Shapely(g) && Done(g, ks + {k}, limit)
    decreases limit, 2, 1
  {
    var g := NormKey(root, p, f, k, limit).value;
    NormKeyNormal(root, p, f, k, limit);
    KeyFrame(root, p, f, k, limit);
    ShapelyKept(f, g, k);
    forall q | q in ks + {k} ensures NormalUnder(Obj(g), g, q, limit) {
      if q != k { UnderKept(f, g, q, limit); }
    }
  }

  lemma {:induction false} FirstKeysNormal(root: Json, p: seq<nat>, s: Fields, limit: nat)
    requires ValidPath(root, p) && Shapely(s)
    requires NormFirst(root, p, s, limit).Ok?
    ensures var h := NormFirst(root, p, s, limit).value; Shapely(h) && Done(h, FIRST_KEYS, limit)
    decreases limit, 3
  {
    KeyDone(root, p, s, Properties, limit, {});
    var f1 := NormKey(root, p, s, Properties, limit).value;
    KeyDone(root, p, f1, Items, limit, {Properties});
    var f2 := NormKey(root, p, f1, Items, limit).value;
    KeyDone(root, p, f2, Defs, limit, {Properties, Items});
    var f3 := NormKey(root, p, f2, Defs, limit).value;
    KeyDone(root, p, f3, Definitions, limit, {Properties, Items, Defs});
    assert {Properties, Items, Defs} + {Definitions} == FIRST_KEYS;
  }

  lemma {:induction false} LastKeysNormal(root: Json, p: seq<nat>, h: Fields, limit: nat)
    requires ValidPath(root, p) && Shapely(h) && Done(h, FIRST_KEYS, limit) && !SingleAllOf(h)
    requires NormLast(root, p, h, limit).Ok?
    ensures Normal(Obj(NormLast(root, p, h, limit).value), limit + 1)
    decreases limit, 3
  {
    KeyDone(root, p, h, AnyOf, limit, FIRST_KEYS);
    var f1 := NormKey(root, p, h, AnyOf, limit).value;
    KeyDone(root, p, f1, OneOf, limit, FIRST_KEYS + {AnyOf});
    var f2 := NormKey(root, p, f1, OneOf, limit).value;
    KeyDone(root, p, f2, AllOf, limit, FIRST_KEYS + {AnyOf, OneOf});
    var r := NormKey(root, p, f2, AllOf, limit).value;
    LastNotSingle(root, p, h, limit);
    assert FIRST_KEYS + {AnyOf, OneOf} + {AllOf} == SUBSCHEMA_KEYS;
  }

  lemma LastNotSingle(root: Json, p: seq<nat>, h: Fields, limit: nat)
    requires ValidPath(root, p) && !SingleAllOf(h)
    requires NormLast(root, p, h, limit).Ok?
    ensures !SingleAllOf(NormLast(root, p, h, limit).value)
  {
    var f1 := NormKey(root, p, h, AnyOf, limit).value;
    var f2 := NormKey(root, p, f1, OneOf, limit).value;
    KeyFrameGet(root, p, h, AnyOf, limit, AllOf);
    KeyFrameGet(root, p, f1, OneOf, limit, AllOf);
    KeyFrameGet(root, p, f2, AllOf, limit, AllOf);
    KeyFrame(root, p, f2, AllOf, limit);
  }

  lemma KeptAt(f: Fields, g: Fields, k: Name)
    requires SameNames(f, g)
    requires Has(f, k) ==> g[Index(f, k)] == f[Index(f, k)]
    ensures Get(g, k) == Get(f, k)
  {
    SameKeys(f, g, k);
  }

  lemma UnderKept(f: Fields, g: Fields, k: Name, limit: nat)
    requires SameNames(f, g)
    requires Has(f, k) ==> g[Index(f, k)] == f[Index(f, k)]
    requires NormalUnder(Obj(f), f, k, limit)
    ensures NormalUnder(Obj(g), g, k, limit)
  {
    SameKeys(f, g, k);
  }

  lemma ShapelyKept(f: Fields, g: Fields, k: Name)
    requires Shapely(f) && SameNames(g, f) && k in SUBSCHEMA_KEYS
    requires forall i :: 0 <= i < |f| && i != Index(f, k) ==> g[i] == f[i]
    requires k == Properties && Has(f, k) ==> SameShape(g[Index(f, k)].value, f[Index(f, k)].value)
    ensures Shapely(g)
  {
    SameKeys(f, g, Default);
    KeptAt(f, g, Ref);
    KeptAt(f, g, Type);
    KeptAt(f, g, AdditionalProperties);
    KeptAt(f, g, Required);
    PropertiesKept(f, g, k);
  }

  lemma PropertiesKept(f: Fields, g: Fields, k: Name)
    requires SameNames(g, f) && k in SUBSCHEMA_KEYS
    requires forall i :: 0 <= i < |f| && i != Index(f, k) ==> g[i] == f[i]
    requires k == Properties && Has(f, k) ==> SameShape(g[Index(f, k)].value, f[Index(f, k)].value)
    ensures Has(g, Properties) == Has(f, Properties)
    ensures Has(f, Properties) ==> Value(g, Properties).Obj? == Value(f, Properties).Obj?
    ensures Has(f, Properties) && Value(f, Properties).Obj? ==>
              Names(Value(g, Properties).fields) == Names(Value(f, Properties).fields)
  {
    SameKeys(f, g, Properties);
    if Has(f, Properties) {
      assert SameShape(Value(g, Properties), Value(f, Properties));
      if Value(f, Properties).Obj? { NamesOfSame(Value(g, Properties).fields, Value(f, Properties).fields); }
    }
  }

  lemma NamesOfSame(f: Fields, g: Fields)
    requires SameNames(f, g)
    ensures Names(f) == Names(g)
  {
  }

  /** What `_set_object_schema_defaults` and the `required` assignment establish. */
  lemma ShapedTop(g: Fields)
    requires !Has(g, Default) && !Inlines(g)
    ensures Shapely(Shaped(g))
  {
    var d := SetDefaults(g);
    ShapedGet(g, Default);
    ShapedGet(g, Ref);
    ShapedGet(g, Type);
    ShapedGet(g, Properties);
    ShapedGet(g, AdditionalProperties);
    if ObjectLike(g) && !Has(g, AdditionalProperties) {
      IndexAppend(g, [Field(AdditionalProperties, Bool(false))], Properties);
    }
    if Has(d, Properties) && Value(d, Properties).Obj? {
      PutGet(d, Required, Arr(Names(Value(d, Properties).fields)), Required);
    }
  }

  /** Shaping touches `additionalProperties` and `required` only. */
  lemma ShapedGet(g: Fields, k: Name)
    ensures k !in {AdditionalProperties, Required} ==> Get(Shaped(g), k) == Get(g, k)
    ensures Has(Shaped(g), AdditionalProperties) <==> ObjectLike(g) || Has(g, AdditionalProperties)
    ensures Has(g, AdditionalProperties) ==> Get(Shaped(g), AdditionalProperties) == Get(g, AdditionalProperties)
    ensures |Shaped(g)| > |g| ==> |g| >= 1
    ensures |g| <= |Shaped(g)|
  {
    var d := SetDefaults(g);
    if ObjectLike(g) && !Has(g, AdditionalProperties) {
      IndexAppend(g, [Field(AdditionalProperties, Bool(false))], k);
      IndexAppend(g, [Field(AdditionalProperties, Bool(false))], AdditionalProperties);
    }
    if Has(d, Properties) && Value(d, Properties).Obj? {
      var v := Arr(Names(Value(d, Properties).fields));
      PutGet(d, Required, v, k);
      PutGet(d, Required, v, AdditionalProperties);
    }
  }

  // ---- a second run ------------------------------------------------------------------------

  /** A value in normal form is left as it is, whatever document it sits in. */
  lemma {:induction false} NormalIsFixed(root: Json, p: seq<nat>, n: Json, limit: nat)
    requires ValidPath(root, p) && Normal(n, limit)
    ensures NormNode(root, p, n, limit) == Ok(n)
    decreases limit, 0
  {
    match n
    case Obj(f) => DictIsFixed(root, p, f, limit - 1);
    case Arr(xs) => MembersAreFixed(root, p, n, 0, limit - 1);
    case _ =>
  }

  lemma {:induction false} MembersAreFixed(root: Json, p: seq<nat>, c: Json, i: nat, limit: nat)
    requires ValidPath(root, p) && i <= Size(c)
    requires forall j | 0 <= j < Size(c) :: Normal(Child(c, j), limit)
    ensures NormMembers(root, p, c, i, limit) == Ok(c)
    decreases limit, 1, Size(c) - i
  {
    if i < Size(c) {
      PutChild(root, p, c, i, Child(c, i));
      NormalIsFixed(PutAt(root, p, c), p + [i], Child(c, i), limit);
      assert SetChild(c, i, Child(c, i)) == c;
      MembersAreFixed(root, p, c, i + 1, limit);
    }
  }

  lemma {:induction false} KeyIsFixed(root: Json, p: seq<nat>, f: Fields, k: Name, limit: nat)
    requires ValidPath(root, p) && NormalUnder(Obj(f), f, k, limit)
    ensures NormKey(root, p, f, k, limit) == Ok(f)
    decreases limit, 2
  {
    if Has(f, k) {
      var i, v := Index(f, k), Value(f, k);
      PutChild(root, p, Obj(f), i, v);
      assert f[i := Field(k, v)] == f;
      if k == Items {
        if !v.Null? { NormalIsFixed(PutAt(root, p, Obj(f)), p + [i], v, limit); }
      } else if VisitsMembers(k, v) {
        MembersAreFixed(PutAt(root, p, Obj(f)), p + [i], v, 0, limit);
      }
    }
  }

  lemma {:induction false} DictIsFixed(root: Json, p: seq<nat>, f: Fields, limit: nat)
    requires ValidPath(root, p) && Normal(Obj(f), limit + 1)
    ensures NormDict(root, p, f, limit) == Ok(Obj(f))
    decreases limit, 4
  {
    TopIsFixed(f);
    KeyIsFixed(root, p, f, Properties, limit);
    KeyIsFixed(root, p, f, Items, limit);
    KeyIsFixed(root, p, f, Defs, limit);
    KeyIsFixed(root, p, f, Definitions, limit);
    KeyIsFixed(root, p, f, AnyOf, limit);
    KeyIsFixed(root, p, f, OneOf, limit);
    KeyIsFixed(root, p, f, AllOf, limit);
    assert NormLast(root, p, f, limit) == Ok(f);
    assert NormPlain(root, p, f, limit) == Ok(Obj(f));
  }

  lemma TopIsFixed(f: Fields)
    requires TopNormal(f)
    ensures Drop(f, {Default}) == f && Shaped(f) == f
  {
    IndexFirst(f, Default);
    DropNothing(f, {Default});
    if Has(f, Properties) && Value(f, Properties).Obj? {
      assert f[Index(f, Required) := f[Index(f, Required)]] == f;
    }
  }

  // ---- theorems ----------------------------------------------------------------------------

  /** On success the document is in normal form, and a second run with the same limit changes nothing. */
  lemma NormalizeNormalAndIdempotent(schema: Json, limit: nat)
    requires Normalize(schema, limit).Ok?
    ensures Normal(Normalize(schema, limit).value, limit)
    ensures Normalize(Normalize(schema, limit).value, limit) == Normalize(schema, limit)
  {
    NormNodeNormal(schema, [], schema, limit);
    var v := Normalize(schema, limit).value;
    NormalIsFixed(v, [], v, limit);
  }

  /** The normal form is exact: it holds of the documents the rewriter leaves alone and of no others. */
  lemma NormalIffUnchanged(schema: Json, limit: nat)
    ensures Normal(schema, limit) <==> Normalize(schema, limit) == Ok(schema)
  {
    if Normal(schema, limit) {
      NormalIsFixed(schema, [], schema, limit);
    } else if Normalize(schema, limit) == Ok(schema) {
      NormNodeNormal(schema, [], schema, limit);
    }
  }

  predicate HasPropertiesNamed(n: Json, names: seq<Json>) {
    n.Obj? && Has(n.fields, Properties) && Value(n.fields, Properties).Obj? &&
    Names(Value(n.fields, Properties).fields) == names
  }

  /**
   A node with a `properties` dictionary keeps every property name in order, whatever is inlined or
   collapsed into it; a property that happens to be called `default` survives like any other.
   */
  lemma {:induction false} PropertyNamesKept(root: Json, p: seq<nat>, f: Fields, names: seq<Json>, limit: nat)
    requires ValidPath(root, p) && HasPropertiesNamed(Obj(f), names)
    requires NormDict(root, p, f, limit).Ok?
    ensures HasPropertiesNamed(NormDict(root, p, f, limit).value, names)
    decreases limit, 3
  {
    var g := Drop(f, {Default});
    DropKeepsNames(f, Default, names);
    if Inlines(g) {
      var target := Resolve(PutAt(root, p, Obj(g)), StrRef(g).value).value;
      InlinedKeepsNames(root, p, g, target, names, limit);
    } else {
      assert NormDict(root, p, f, limit) == NormPlain(root, p, g, limit);
      PlainKeepsNames(root, p, g, names, limit);
    }
  }

  lemma {:induction false} InlinedKeepsNames(
      root: Json, p: seq<nat>, g: Fields, target: Fields, names: seq<Json>, limit: nat)
    requires ValidPath(root, p) && HasPropertiesNamed(Obj(g), names) &&
             NormNode(root, p, Obj(Inlined(g, target)), limit).Ok?
    ensures HasPropertiesNamed(NormNode(root, p, Obj(Inlined(g, target)), limit).value, names)
    decreases limit, 2
  {
    var m := Inlined(g, target);
    MergeKeepsNames(g, target, Ref, names);
    NodeOfDict(root, p, m, limit);
    PropertyNamesKept(root, p, m, names, limit - 1);
  }

  lemma {:induction false} PlainKeepsNames(root: Json, p: seq<nat>, g: Fields, names: seq<Json>, limit: nat)
    requires ValidPath(root, p) && HasPropertiesNamed(Obj(g), names) && NormPlain(root, p, g, limit).Ok?
    ensures HasPropertiesNamed(NormPlain(root, p, g, limit).value, names)
    decreases limit, 2
  {
    ShapedKeepsNames(g, names);
    FirstKeepsProperties(root, p, Shaped(g), names, limit);
    TailKeepsNames(root, p, NormFirst(root, p, Shaped(g), limit).value, names, limit);
  }

  lemma {:induction false} TailKeepsNames(root: Json, p: seq<nat>, h: Fields, names: seq<Json>, limit: nat)
    requires ValidPath(root, p) && HasPropertiesNamed(Obj(h), names)
    requires NormTail(root, p, h, limit).Ok?
    ensures HasPropertiesNamed(NormTail(root, p, h, limit).value, names)
    decreases limit, 0
  {
    if SingleAllOf(h) {
      var m := Collapsed(h, Member(h).fields);
      MergeKeepsNames(h, Member(h).fields, AllOf, names);
      NodeOfDict(root, p, m, limit);
      PropertyNamesKept(root, p, m, names, limit - 1);
    } else {
      LastKeepsProperties(root, p, h, limit);
    }
  }

  lemma NodeOfDict(root: Json, p: seq<nat>, f: Fields, limit: nat)
    requires ValidPath(root, p)
    ensures NormNode(root, p, Obj(f), limit) ==
            if limit == 0 then Err(RecursionLimit) else NormDict(root, p, f, limit - 1)
  {
  }

  lemma DropKeepsNames(f: Fields, k: Name, names: seq<Json>)
    requires HasPropertiesNamed(Obj(f), names) && k != Properties
    ensures HasPropertiesNamed(Obj(Drop(f, {k})), names)
  {
    DropGet(f, {k}, Properties);
  }

  lemma MergeKeepsNames(f: Fields, g: Fields, k: Name, names: seq<Json>)
    requires HasPropertiesNamed(Obj(f), names) && k != Properties
    ensures HasPropertiesNamed(Obj(Drop(Merge(f, g), {k})), names)
  {
    MergeGet(f, g, Properties);
    DropKeepsNames(Merge(f, g), k, names);
  }

  lemma ShapedKeepsNames(f: Fields, names: seq<Json>)
    requires HasPropertiesNamed(Obj(f), names)
    ensures HasPropertiesNamed(Obj(Shaped(f)), names)
  {
    ShapedGet(f, Properties);
  }

  lemma FirstKeepsProperties(root: Json, p: seq<nat>, s: Fields, names: seq<Json>, limit: nat)
    requires ValidPath(root, p) && NormFirst(root, p, s, limit).Ok?
    requires HasPropertiesNamed(Obj(s), names)
    ensures HasPropertiesNamed(Obj(NormFirst(root, p, s, limit).value), names)
  {
    var f1 := NormKey(root, p, s, Properties, limit).value;
    var f2 := NormKey(root, p, f1, Items, limit).value;
    var f3 := NormKey(root, p, f2, Defs, limit).value;
    KeyFrame(root, p, s, Properties, limit);
    KeyFrameGet(root, p, s, Properties, limit, Properties);
    NamesOfSame(Value(f1, Properties).fields, Value(s, Properties).fields);
    KeyFrameGet(root, p, f1, Items, limit, Properties);
    KeyFrameGet(root, p, f2, Defs, limit, Properties);
    KeyFrameGet(root, p, f3, Definitions, limit, Properties);
  }

  lemma LastKeepsProperties(root: Json, p: seq<nat>, h: Fields, limit: nat)
    requires ValidPath(root, p) && NormLast(root, p, h, limit).Ok?
    ensures Get(NormLast(root, p, h, limit).value, Properties) == Get(h, Properties)
  {
    var f1 := NormKey(root, p, h, AnyOf, limit).value;
    var f2 := NormKey(root, p, f1, OneOf, limit).value;
    KeyFrameGet(root, p, h, AnyOf, limit, Properties);
    KeyFrameGet(root, p, f1, OneOf, limit, Properties);
    KeyFrameGet(root, p, f2, AllOf, limit, Properties);
  }
}
