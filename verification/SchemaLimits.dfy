/**
 Where the rewriter's promises stop: what each restriction of the theorems shuts out, and what the
 code does there.
 */
module SchemaLimits {
  import opened Options
  import opened Json
  import opened SchemaNormalizer
  import opened SchemaDefinitions
  import opened SchemaNormalForm
  import opened PureNormalizer
  import opened SchemaSemantics
  import R = SchemaRefinement
  import F = FinishedDefinitions
  import SA = SchemaAcyclicity
  import I = InPlaceEqualsPure

  // ---- a `$ref` or `allOf` of the merged dictionary is lost --------------------------------

  lemma DropKeyed(g: Fields, d: Fields, k: Name)
    requires Has(g, k)
    ensures Drop(Merge(g, d), {k}) == Drop(Merge(g, Drop(d, {k})), {k})
  {
    var G := KeySet(g);
    HasIff(g, k);
    DropDrop(d, {k}, G);
    DropAgree(d, {k} + G, G);
  }

  /** Whatever `$ref` the target of an inlined `$ref` has, the result is as if it had none. */
  lemma InlinedTargetLosesRef(g: Fields, target: Fields)
    requires Inlines(g)
    ensures Inlined(g, target) == Inlined(g, Drop(target, {Ref}))
    ensures !Has(Inlined(g, target), Ref)
  {
    DropKeyed(g, target, Ref);
    DropGet(Merge(g, target), {Ref}, Ref);
  }

  /** Likewise the `allOf` of the sole member of an `allOf`. */
  lemma CollapsedMemberLosesAllOf(h: Fields, member: Fields)
    requires SingleAllOf(h)
    ensures Collapsed(h, member) == Collapsed(h, Drop(member, {AllOf}))
    ensures !Has(Collapsed(h, member), AllOf)
  {
    DropKeyed(h, member, AllOf);
    DropGet(Merge(h, member), {AllOf}, AllOf);
  }

  /**
   `{"allOf": [{"allOf": [{x}]}]}`: the inner `allOf` is lost, and with it the demand `x`.
   */
  lemma LostAllOfWidens(kw: Meaning, x: Field, i: Json, limit: nat)
    requires x.key.Text? && !kw(x.key, x.value, i) && limit >= 2
    ensures var original, strict := Obj(AllOfOne(AllOfOne([x]))), Obj([]);
            && Normalize(original, limit) == Ok(strict)
            && Accepts(kw, strict, i) && !Accepts(kw, original, i)
  {
    var f := AllOfOne(AllOfOne([x]));
    LostAllOf(Obj(f), [], AllOfOne([x]), limit);
    assert AcceptsFrom(kw, Obj([]), i, 0);
    forall lo: nat ensures !AcceptsFrom(kw, Obj(f), i, lo) {
      Rejected(kw, lo, Obj(f), [x], x, i);
      AllOfRejects(kw, lo, Obj(f), [x], i);
      AllOfRejects(kw, lo, Obj(f), AllOfOne([x]), i);
    }
  }

  /** `{"allOf": [member]}`. */
  function AllOfOne(member: Fields): Fields {
    [Field(AllOf, Arr([Obj(member)]))]
  }

  lemma AllOfRejects(kw: Meaning, n: nat, root: Json, member: Fields, i: Json)
    requires !Eval(kw, n, root, Obj(member), i)
    ensures !Eval(kw, n, root, Obj(AllOfOne(member)), i)
  {
    var x := AllOfOne(member)[0];
    assert x.value.items[0] == Obj(member);
    Rejected(kw, n, root, AllOfOne(member), x, i);
  }

  lemma LostAllOf(root: Json, p: seq<nat>, member: Fields, limit: nat)
    requires ValidPath(root, p) && limit >= 2 && |member| == 1 && member[0].key == AllOf
    ensures NormNode(root, p, Obj(AllOfOne(member)), limit) == Ok(Obj([]))
  {
    var f := AllOfOne(member);
    AllOfOnly(f);
    CollapsedMemberLosesAllOf(f, member);
    assert Drop(member, {AllOf}) == Drop(member[1..], {AllOf}) == [];
    MergeEmpty(f);
    assert Drop(f, {AllOf}) == Drop(f[1..], {AllOf}) == [];
    NodeOfDict(root, p, f, limit);
    SingleCollapses(root, p, f, limit - 1);
    EmptyFixed(root, p, limit - 1);
  }

  lemma AllOfOnly(f: Fields)
    requires |f| == 1 && f[0].key == AllOf
    ensures Index(f, AllOf) == 0 && (forall k :: Has(f, k) ==> k == AllOf)
    ensures Drop(f, {Default}) == f && Shaped(f) == f && !Inlines(f)
  {
    DropNothing(f, {Default});
  }

  // ---- `required` --------------------------------------------------------------------------

  predicate HasAll(i: Fields, required: seq<Json>) {
    forall j | 0 <= j < |required| && required[j].Str? :: Has(i, Parse(required[j].s))
  }

  predicate Canonical(f: Fields) {
    forall j | 0 <= j < |f| :: Parse(Spell(f[j].key)) == f[j].key
  }

  /** Replacing `required` by the property names keeps every old demand exactly when it was among them. */
  lemma RequiredKeptIff(props: Fields, required: seq<Json>)
    requires Canonical(props)
    ensures (forall i :: HasAll(i, Names(props)) ==> HasAll(i, required)) <==>
            forall j | 0 <= j < |required| && required[j].Str? :: Has(props, Parse(required[j].s))
  {
    assert HasAll(props, Names(props)) by {
      forall j | 0 <= j < |props| ensures Has(props, Parse(Names(props)[j].s)) {
        HasIff(props, props[j].key);
      }
    }
    if forall j | 0 <= j < |required| && required[j].Str? :: Has(props, Parse(required[j].s)) {
      forall i, j | HasAll(i, Names(props)) && 0 <= j < |required| && required[j].Str?
        ensures Has(i, Parse(required[j].s))
      {
        var m := Index(props, Parse(required[j].s));
        assert Names(props)[m].Str?;
      }
    }
  }

  // ---- a cycle of `$ref`s with siblings ----------------------------------------------------

  /** `{"$ref": ref, k: v}`. */
  function Pointing(ref: string, k: Name, v: Json): Json {
    Obj([Field(Ref, Str(ref)), Field(k, v)])
  }

  /** `{"properties": {x: node}}`. */
  function Holding(x: Name, node: Json): Fields {
    [Field(Properties, Obj([Field(x, node)]))]
  }

  /** Whatever is written at `p`, `key` is defined as an object whose property points back to it. */
  ghost predicate Looping(root: Json, p: seq<nat>, key: DefKey, x: Name, node: Json) {
    ValidPath(root, p) && forall v :: Def(PutAt(root, p, v), key) == Some(Obj(Holding(x, node)))
  }

  lemma LoopingChild(root: Json, p: seq<nat>, key: DefKey, x: Name, node: Json, n: Json, i: nat)
    requires Looping(root, p, key, x, node) && i < Size(n)
    ensures Looping(PutAt(root, p, n), p + [i], key, x, node)
  {
    forall v ensures ValidPath(PutAt(root, p, n), p + [i]) &&
                     Def(PutAt(PutAt(root, p, n), p + [i], v), key) == Some(Obj(Holding(x, node)))
    {
      PutChild(root, p, n, i, v);
    }
    PutChild(root, p, n, i, n);
  }

  lemma HoldingProperty(a: Fields, x: Name, node: Json)
    requires !Has(a, Properties)
    ensures var f := Shaped(a + Holding(x, node));
            Has(f, Properties) && Index(f, Properties) == |a| && Value(f, Properties) == Obj([Field(x, node)])
  {
    var g := a + Holding(x, node);
    IndexAppend(a, Holding(x, node), Properties);
    ConsGet(Field(Properties, Obj([Field(x, node)])), [], Properties);
    ShapedGet(g, Properties);
    ShapedIndex(g, Properties);
  }

  lemma ShapedIndex(g: Fields, k: Name)
    requires Has(g, k) && k != Required
    ensures Index(Shaped(g), k) == Index(g, k)
  {
    var d := SetDefaults(g);
    IndexAppend(g, [Field(AdditionalProperties, Bool(false))], k);
    if Has(d, Properties) && Value(d, Properties).Obj? {
      var r := Arr(Names(Value(d, Properties).fields));
      if Has(d, Required) {
        SameKeys(d, Put(d, Required, r), k);
      } else {
        IndexAppend(d, [Field(Required, r)], k);
      }
    }
  }

  /** A `$ref` with siblings is replaced by the merged target. */
  lemma InlineStep(root: Json, p: seq<nat>, f: Fields, ref: string, target: Fields, limit: nat)
    requires ValidPath(root, p) && limit > 0 && Drop(f, {Default}) == f && Inlines(f) && StrRef(f) == Some(ref)
    requires Resolve(PutAt(root, p, Obj(f)), ref) == Ok(target)
    ensures NormNode(root, p, Obj(f), limit) == NormNode(root, p, Obj(Inlined(f, target)), limit - 1)
  {
    NodeOfDict(root, p, f, limit);
  }

  /** Where the property of a holder sits while it is rewritten. */
  function Inside(root: Json, p: seq<nat>, a: Fields, x: Name, node: Json): Json
    requires ValidPath(root, p)
  {
    PutAt(root, p, Obj(Shaped(a + Holding(x, node))))
  }

  /** One field that the rewriter does not look at. */
  predicate Beside(a: Fields) {
    |a| == 1 && (a[0].key.Text? || a[0].key in {Defs, Definitions})
  }

  lemma MembersExhaust(root: Json, p: seq<nat>, c: Json, limit: nat)
    requires ValidPath(root, p) && Size(c) > 0 && ValidPath(PutAt(root, p, c), p + [0])
    requires NormNode(PutAt(root, p, c), p + [0], Child(c, 0), limit) == Err(RecursionLimit)
    ensures NormMembers(root, p, c, 0, limit) == Err(RecursionLimit)
  {
  }

  lemma PropertiesExhaust(root: Json, p: seq<nat>, g: Fields, i: nat, c: Json, limit: nat)
    requires ValidPath(root, p) && Has(Shaped(g), Properties) && Index(Shaped(g), Properties) == i
    requires c == Value(Shaped(g), Properties) && c.Obj? && ValidPath(PutAt(root, p, Obj(Shaped(g))), p + [i])
    requires NormMembers(PutAt(root, p, Obj(Shaped(g))), p + [i], c, 0, limit) == Err(RecursionLimit)
    ensures NormPlain(root, p, g, limit) == Err(RecursionLimit)
  {
    var f := Shaped(g);
    assert NormKey(root, p, f, Properties, limit) == Err(RecursionLimit);
    assert NormFirst(root, p, f, limit) == Err(RecursionLimit);
  }

  /** A property that exhausts the limit makes its holder exhaust it. */
  lemma HolderExhausts(root: Json, p: seq<nat>, a: Fields, x: Name, node: Json, limit: nat)
    requires ValidPath(root, p) && Beside(a)
    ensures var q, c, top := p + [|a|], Obj([Field(x, node)]), Inside(root, p, a, x, node);
            && ValidPath(top, q) && ValidPath(PutAt(top, q, c), q + [0])
            && (NormNode(PutAt(top, q, c), q + [0], node, limit) == Err(RecursionLimit) ==>
                  NormNode(root, p, Obj(a + Holding(x, node)), limit + 1) == Err(RecursionLimit))
  {
    var g := a + Holding(x, node);
    var q, c, top := p + [|a|], Obj([Field(x, node)]), Inside(root, p, a, x, node);
    HolderIsPlain(root, p, a, x, node, limit + 1);
    HoldingProperty(a, x, node);
    PutChild(root, p, Obj(Shaped(g)), |a|, c);
    PutChild(top, q, c, 0, node);
    if NormNode(PutAt(top, q, c), q + [0], node, limit) == Err(RecursionLimit) {
      MembersExhaust(top, q, c, limit);
      PropertiesExhaust(root, p, g, |a|, c, limit);
    }
  }

  /** The rewrite of an object whose property points back never returns. */
  lemma {:induction false} HolderLoops(
      root: Json, p: seq<nat>, a: Fields, key: DefKey, ref: string, x: Name, k: Name, v: Json, limit: nat)
    requires Names2(ref) == Some(key) && k.Text? && Beside(a) && ValidPath(root, p)
    requires ValidPath(Inside(root, p, a, x, Pointing(ref, k, v)), p + [|a|])
    requires Looping(Inside(root, p, a, x, Pointing(ref, k, v)), p + [|a|], key, x, Pointing(ref, k, v))
    ensures NormNode(root, p, Obj(a + Holding(x, Pointing(ref, k, v))), limit + 1) == Err(RecursionLimit)
    decreases limit, 1
  {
    var node := Pointing(ref, k, v);
    var q, c, top := p + [|a|], Obj([Field(x, node)]), Inside(root, p, a, x, node);
    HolderExhausts(root, p, a, x, node, limit);
    LoopingChild(top, q, key, x, node, c, 0);
    PointerLoops(PutAt(top, q, c), q + [0], key, ref, x, k, v, limit);
  }

  lemma {:induction false} PointerLoops(
      root: Json, p: seq<nat>, key: DefKey, ref: string, x: Name, k: Name, v: Json, limit: nat)
    requires Names2(ref) == Some(key) && k.Text? && Looping(root, p, key, x, Pointing(ref, k, v))
    ensures NormNode(root, p, Pointing(ref, k, v), limit) == Err(RecursionLimit)
    decreases limit, 0
  {
    if limit > 0 {
      LoopInlines(root, p, key, ref, x, k, v, limit);
      MergedLoops(root, p, [Field(k, v)], key, ref, x, k, v, limit - 1);
    }
  }

  lemma LoopInlines(root: Json, p: seq<nat>, key: DefKey, ref: string, x: Name, k: Name, v: Json, limit: nat)
    requires Names2(ref) == Some(key) && k.Text? && Looping(root, p, key, x, Pointing(ref, k, v)) && limit > 0
    ensures NormNode(root, p, Pointing(ref, k, v), limit) ==
            NormNode(root, p, Obj([Field(k, v)] + Holding(x, Pointing(ref, k, v))), limit - 1)
  {
    var node := Pointing(ref, k, v);
    PointingInlines(ref, k, v, Holding(x, node));
    ResolveDef(PutAt(root, p, node), ref);
    InlineStep(root, p, node.fields, ref, Holding(x, node), limit);
  }

  lemma {:induction false} MergedLoops(
      root: Json, p: seq<nat>, a: Fields, key: DefKey, ref: string, x: Name, k: Name, v: Json, limit: nat)
    requires Names2(ref) == Some(key) && k.Text? && Looping(root, p, key, x, Pointing(ref, k, v)) && Beside(a)
    ensures NormNode(root, p, Obj(a + Holding(x, Pointing(ref, k, v))), limit) == Err(RecursionLimit)
    decreases limit, 0
  {
    if limit > 0 {
      InsideLoops(root, p, a, key, x, Pointing(ref, k, v));
      HolderLoops(root, p, a, key, ref, x, k, v, limit - 1);
    }
  }

  lemma InsideLoops(root: Json, p: seq<nat>, a: Fields, key: DefKey, x: Name, node: Json)
    requires Looping(root, p, key, x, node) && Beside(a)
    ensures ValidPath(Inside(root, p, a, x, node), p + [|a|])
    ensures Looping(Inside(root, p, a, x, node), p + [|a|], key, x, node)
  {
    HoldingProperty(a, x, node);
    LoopingChild(root, p, key, x, node, Obj(Shaped(a + Holding(x, node))), |a|);
  }

  lemma HolderIsPlain(root: Json, p: seq<nat>, a: Fields, x: Name, node: Json, limit: nat)
    requires ValidPath(root, p) && limit > 0 && Beside(a)
    ensures !Has(a, Properties)
    ensures NormNode(root, p, Obj(a + Holding(x, node)), limit) == NormPlain(root, p, a + Holding(x, node), limit - 1)
  {
    var f := a + Holding(x, node);
    DropNothing(f, {Default});
    HasIff(f, Ref);
    HasIff(a, Properties);
    NodeOfDict(root, p, f, limit);
  }

  lemma PointingInlines(ref: string, k: Name, v: Json, target: Fields)
    requires k.Text? && |target| == 1 && target[0].key == Properties
    ensures var g := Pointing(ref, k, v).fields;
            && Drop(g, {Default}) == g && Inlines(g) && StrRef(g) == Some(ref)
            && Inlined(g, target) == [Field(k, v)] + target
  {
    var g := Pointing(ref, k, v).fields;
    DropNothing(g, {Default});
    assert Index(g, Ref) == 0;
    assert Drop(target, KeySet(g)) == target by { DropNothing(target, KeySet(g)); }
    var m := g + target;
    assert m[1..] == [Field(k, v)] + target;
    DropNothing(m[1..], {Ref});
  }

  /**
   `{"properties": {x: N}, sec: {name: {"properties": {x: N}}}}` with `N` a `$ref` to that definition
   and one sibling: the rewriter exhausts every recursion limit.
   */
  lemma CycleNeverReturns(sec: Name, name: Name, ref: string, x: Name, k: Name, v: Json, limit: nat)
    requires sec in {Defs, Definitions} && Names2(ref) == Some((sec, name)) && k.Text?
    ensures var holder := Holding(x, Pointing(ref, k, v));
            Normalize(Obj([Field(sec, Obj([Field(name, Obj(holder))]))] + holder), limit) == Err(RecursionLimit)
  {
    var node := Pointing(ref, k, v);
    var holder := Holding(x, node);
    var a := [Field(sec, Obj([Field(name, Obj(holder))]))];
    var f := a + holder;
    NodeOfDict(Obj(f), [], f, limit);
    if limit > 0 {
      RootLooping(a, sec, name, x, node);
      HolderLoops(Obj(f), [], a, (sec, name), ref, x, k, v, limit - 1);
    }
  }

  lemma RootLooping(a: Fields, sec: Name, name: Name, x: Name, node: Json)
    requires sec in {Defs, Definitions} && a == [Field(sec, Obj([Field(name, Obj(Holding(x, node)))]))]
    ensures var f := Obj(Shaped(a + Holding(x, node)));
            [] + [|a|] == [1] && ValidPath(f, [1]) && Looping(f, [1], (sec, name), x, node)
  {
    var f := Shaped(a + Holding(x, node));
    HoldingProperty(a, x, node);
    ShapedIndex(a + Holding(x, node), sec);
    ShapedGet(a + Holding(x, node), sec);
    forall v ensures ValidPath(Obj(f), [1]) && Def(PutAt(Obj(f), [1], v), (sec, name)) == Some(Obj(Holding(x, node))) {
      PutChild(Obj(f), [], Obj(f), 1, v);
      assert [] + [1] == [1];
      var g := f[1 := f[1].(value := v)];
      assert PutAt(Obj(f), [1], v) == Obj(g);
      SameKeys(f, g, sec);
      DefOfFields(f, g, (sec, name));
    }
  }

  // ---- meaning that is lost ----------------------------------------------------------------

  /** A dictionary that only needs its defaults and `required`. */
  lemma ShapedOnly(root: Json, p: seq<nat>, g: Fields, limit: nat)
    requires ValidPath(root, p) && !Has(g, Default) && !Inlines(g) && Normal(Obj(Shaped(g)), limit)
    ensures NormNode(root, p, Obj(g), limit) == Ok(Obj(Shaped(g)))
  {
    var s := Shaped(g);
    HasIff(g, Default);
    DropNothing(g, {Default});
    NormalIsFixed(root, p, Obj(s), limit);
    TopIsFixed(s);
    NodeOfDict(root, p, s, limit);
    NodeOfDict(root, p, g, limit);
    assert NormDict(root, p, s, limit - 1) == NormPlain(root, p, s, limit - 1);
    assert NormDict(root, p, g, limit - 1) == NormPlain(root, p, g, limit - 1);
  }

  lemma LeafNormal(x: Field, d: nat)
    requires d > 0 && (x.key == Ref || x.key.Text?)
    ensures Normal(Obj([x]), d)
  {
    assert forall k :: Has([x], k) ==> k == x.key;
  }

  /** `{"$defs": {a: {"$ref": rb}, b: {x}}}`. */
  function TwoDefs(a: Name, b: Name, rb: string, x: Field): Fields {
    [Field(Defs, Obj([Field(a, Obj([Field(Ref, Str(rb))])), Field(b, Obj([x]))]))]
  }

  lemma TwoDefsNormal(a: Name, b: Name, rb: string, x: Field, d: nat)
    requires x.key.Text? && d > 1
    ensures Normal(Obj(TwoDefs(a, b, rb, x)), d)
  {
    var f := TwoDefs(a, b, rb, x);
    assert forall k :: Has(f, k) ==> k == Defs;
    LeavesNormal(f[0].value, Field(Ref, Str(rb)), x, d - 1);
  }

  lemma LeavesNormal(v: Json, x: Field, y: Field, d: nat)
    requires d > 0 && (x.key == Ref || x.key.Text?) && y.key.Text?
    requires v.Obj? && |v.fields| == 2 && v.fields[0].value == Obj([x]) && v.fields[1].value == Obj([y])
    ensures forall i | 0 <= i < Size(v) :: Normal(Child(v, i), d)
  {
    forall i | 0 <= i < Size(v) ensures Normal(Child(v, i), d) { LeafNormal(if i == 0 then x else y, d); }
  }

  /**
   `{"$ref": ra, "$defs": {a: {"$ref": rb}, b: {x}}}`: the `$ref` of the inlined definition is lost, and
   with it the demand `x` of what it names.
   */
  lemma LostRefWidens(kw: Meaning, a: Name, b: Name, ra: string, rb: string, x: Field, i: Json, limit: nat)
    requires a != b && Names2(ra) == Some((Defs, a)) && Names2(rb) == Some((Defs, b)) && limit >= 3
    requires x.key.Text? && !kw(x.key, x.value, i)
    ensures var original, strict := Obj([Field(Ref, Str(ra))] + TwoDefs(a, b, rb, x)), Obj(TwoDefs(a, b, rb, x));
            && Normalize(original, limit) == Ok(strict)
            && Accepts(kw, strict, i) && !Accepts(kw, original, i)
  {
    var t := TwoDefs(a, b, rb, x);
    var f := [Field(Ref, Str(ra))] + t;
    LostRef(a, b, ra, rb, x, limit);
    assert AcceptsFrom(kw, Obj(t), i, 0);
    forall lo: nat ensures !AcceptsFrom(kw, Obj(f), i, lo) {
      NotAccepted(kw, a, b, ra, rb, x, i, lo);
    }
  }

  lemma LostRef(a: Name, b: Name, ra: string, rb: string, x: Field, limit: nat)
    requires a != b && Names2(ra) == Some((Defs, a)) && limit >= 3 && x.key.Text?
    ensures Normalize(Obj([Field(Ref, Str(ra))] + TwoDefs(a, b, rb, x)), limit) == Ok(Obj(TwoDefs(a, b, rb, x)))
  {
    var t := TwoDefs(a, b, rb, x);
    var f := [Field(Ref, Str(ra))] + t;
    var target := [Field(Ref, Str(rb))];
    NodeOfDict(Obj(f), [], f, limit);
    DropNothing(f, {Default});
    ConsGet(Field(Ref, Str(ra)), t, Ref);
    ConsGet(Field(Ref, Str(ra)), t, Defs);
    ResolveDef(Obj(f), ra);
    assert Def(Obj(f), (Defs, a)) == Some(Obj(target));
    InlinedTargetLosesRef(f, target);
    assert Drop(target, {Ref}) == [];
    MergeEmpty(f);
    DropNothing(t, {Ref});
    assert f[1..] == t;
    TwoDefsNormal(a, b, rb, x, limit - 1);
    NormalIsFixed(Obj(f), [], Obj(t), limit - 1);
  }

  lemma NotAccepted(kw: Meaning, a: Name, b: Name, ra: string, rb: string, x: Field, i: Json, n: nat)
    requires a != b && Names2(ra) == Some((Defs, a)) && Names2(rb) == Some((Defs, b))
    requires x.key.Text? && !kw(x.key, x.value, i)
    ensures var f := [Field(Ref, Str(ra))] + TwoDefs(a, b, rb, x); !Eval(kw, n, Obj(f), Obj(f), i)
  {
    var t := TwoDefs(a, b, rb, x);
    var f := [Field(Ref, Str(ra))] + t;
    TwoTargets(f, a, b, rb, x);
    R.NotRoot(ra);
    R.NotRoot(rb);
    R.TargetOfDef(Obj(f), ra);
    R.TargetOfDef(Obj(f), rb);
    forall m: nat ensures !Eval(kw, m, Obj(f), Obj([x]), i) { Rejected(kw, m, Obj(f), [x], x, i); }
    forall m: nat ensures !Eval(kw, m, Obj(f), Obj([Field(Ref, Str(rb))]), i) {
      RefRejected(kw, m, Obj(f), [Field(Ref, Str(rb))], rb, Obj([x]), i);
    }
    RefRejected(kw, n, Obj(f), f, ra, Obj([Field(Ref, Str(rb))]), i);
  }

  lemma TwoTargets(f: Fields, a: Name, b: Name, rb: string, x: Field)
    requires a != b && |f| == 2 && f[0].key == Ref && f[1..] == TwoDefs(a, b, rb, x)
    ensures Def(Obj(f), (Defs, a)) == Some(Obj([Field(Ref, Str(rb))]))
    ensures Def(Obj(f), (Defs, b)) == Some(Obj([x]))
  {
    var da, db := Field(a, Obj([Field(Ref, Str(rb))])), Field(b, Obj([x]));
    assert f[1] == f[1..][0];
    IndexIs(f, Defs, 1);
    var c := Value(f, Defs).fields;
    assert c == [da, db];
    IndexIs(c, a, 0);
    IndexIs(c, b, 1);
  }

  /** One failing field is enough. */
  lemma Rejected(kw: Meaning, n: nat, root: Json, f: Fields, x: Field, i: Json)
    requires x in f && !Check(kw, n, root, PropertyNames(f), x, i)
    ensures !Eval(kw, n, root, Obj(f), i)
  {
  }

  lemma RefRejected(kw: Meaning, n: nat, root: Json, f: Fields, ref: string, d: Json, i: Json)
    requires f != [] && f[0] == Field(Ref, Str(ref)) && Target(root, ref) == Some(d)
    requires forall m: nat :: !Eval(kw, m, root, d, i)
    ensures !Eval(kw, n, root, Obj(f), i)
  {
    Rejected(kw, n, root, f, f[0], i);
  }

  /** `{"properties": {}, "required": [s]}`: the demand for `s` is dropped. */
  lemma DroppedRequiredWidens(kw: Meaning, s: string, limit: nat)
    requires limit >= 1
    ensures var original := Obj([Field(Properties, Obj([])), Field(Required, Arr([Str(s)]))]);
            var strict :=
              Obj([Field(Properties, Obj([])), Field(Required, Arr([])), Field(AdditionalProperties, Bool(false))]);
            && Normalize(original, limit) == Ok(strict)
            && Accepts(kw, strict, Obj([])) && !Accepts(kw, original, Obj([]))
  {
    var g := [Field(Properties, Obj([])), Field(Required, Arr([Str(s)]))];
    var r := [Field(Properties, Obj([])), Field(Required, Arr([])), Field(AdditionalProperties, Bool(false))];
    EmptyShaped(g, r);
    ShapedOnly(Obj(g), [], g, limit);
    EmptyAccepted(kw, r);
    assert AcceptsFrom(kw, Obj(r), Obj([]), 0);
    forall lo: nat ensures !AcceptsFrom(kw, Obj(g), Obj([]), lo) {
      Unmet(kw, lo, Obj(g), PropertyNames(g), s);
      Rejected(kw, lo, Obj(g), g, g[1], Obj([]));
    }
  }

  lemma Unmet(kw: Meaning, n: nat, root: Json, props: set<Name>, s: string)
    ensures !Check(kw, n, root, props, Field(Required, Arr([Str(s)])), Obj([]))
  {
    var x := Field(Required, Arr([Str(s)]));
    assert x.value.items[0].Str?;
    assert !Has([], Parse(s));
  }

  lemma EmptyAccepted(kw: Meaning, r: Fields)
    requires r == [Field(Properties, Obj([])), Field(Required, Arr([])), Field(AdditionalProperties, Bool(false))]
    ensures forall n: nat :: Eval(kw, n, Obj(r), Obj(r), Obj([]))
  {
    forall n: nat, j | 0 <= j < |r| ensures Check(kw, n, Obj(r), PropertyNames(r), r[j], Obj([])) {}
  }

  lemma EmptyShaped(g: Fields, r: Fields)
    requires |g| == 2 && g[0] == Field(Properties, Obj([])) && g[1].key == Required
    requires r == [Field(Properties, Obj([])), Field(Required, Arr([])), Field(AdditionalProperties, Bool(false))]
    ensures Shaped(g) == r && !Has(g, Default) && !Inlines(g)
    ensures forall d: nat | d > 0 :: Normal(Obj(r), d)
  {
    IndexIs(g, Properties, 0);
    IndexIs(g, AdditionalProperties, 2);
    IndexIs(g, Default, 2);
    IndexIs(g, Ref, 2);
    var d := g + [Field(AdditionalProperties, Bool(false))];
    assert SetDefaults(g) == d;
    IndexIs(d, Properties, 0);
    IndexIs(d, Required, 1);
    assert Names([]) == [];
    IndexIs(r, Properties, 0);
    IndexIs(r, Required, 1);
    assert forall k :: Has(r, k) ==> k in {Properties, Required, AdditionalProperties};
    IndexIs(r, AdditionalProperties, 2);
  }

  /** `{"properties": {}}`. */
  const ANY_OBJECT := Obj([Field(Properties, Obj([]))])
  const NO_MEMBERS :=
    Obj([Field(Properties, Obj([])), Field(AdditionalProperties, Bool(false)), Field(Required, Arr([]))])

  /**
   `{"oneOf": [{}, {"properties": {}}]}`: both alternatives accept an object with a member, so the
   original rejects it; the rewrite narrows the second alternative, and the strict schema accepts.
   */
  lemma OverlappingOneOfWidens(kw: Meaning, y: Field, limit: nat)
    requires limit >= 2
    ensures var original := Obj([Field(OneOf, Arr([Obj([]), ANY_OBJECT]))]);
            var strict := Obj([Field(OneOf, Arr([Obj([]), NO_MEMBERS]))]);
            && Normalize(original, limit) == Ok(strict)
            && Accepts(kw, strict, Obj([y])) && !Accepts(kw, original, Obj([y]))
  {
    var f, r := [Field(OneOf, Arr([Obj([]), ANY_OBJECT]))], [Field(OneOf, Arr([Obj([]), NO_MEMBERS]))];
    OneOfRewritten(f, r, limit);
    forall n: nat ensures Eval(kw, n, Obj(r), Obj(r), Obj([y])) { StrictOneOf(kw, n, Obj(r), r, y); }
    assert AcceptsFrom(kw, Obj(r), Obj([y]), 0);
    forall lo: nat ensures !AcceptsFrom(kw, Obj(f), Obj([y]), lo) { LooseOneOf(kw, lo, Obj(f), f, y); }
  }

  lemma StrictOneOf(kw: Meaning, n: nat, root: Json, r: Fields, y: Field)
    requires r == [Field(OneOf, Arr([Obj([]), NO_MEMBERS]))]
    ensures Eval(kw, n, root, Obj(r), Obj([y]))
  {
    var i := Obj([y]);
    var xs := [Obj([]), NO_MEMBERS];
    assert Eval(kw, n, root, xs[0], i);
    NoMembersRejects(kw, n, root, y);
    assert ExactlyOne(kw, n, root, xs, i);
  }

  lemma NoMembersRejects(kw: Meaning, n: nat, root: Json, y: Field)
    ensures !Eval(kw, n, root, NO_MEMBERS, Obj([y]))
  {
    var f, i := NO_MEMBERS.fields, Obj([y]);
    IndexIs(f, Properties, 0);
    assert PropertyNames(f) == {};
    assert i.fields[0].key !in PropertyNames(f);
    Rejected(kw, n, root, f, f[1], i);
  }

  lemma AnyObjectAccepts(kw: Meaning, n: nat, root: Json, y: Field)
    ensures Eval(kw, n, root, ANY_OBJECT, Obj([y]))
  {
    var f := ANY_OBJECT.fields;
    assert CheckProperties(kw, n, root, [], [y]);
    assert Check(kw, n, root, PropertyNames(f), f[0], Obj([y]));
  }

  lemma LooseOneOf(kw: Meaning, n: nat, root: Json, f: Fields, y: Field)
    requires f == [Field(OneOf, Arr([Obj([]), ANY_OBJECT]))]
    ensures !Eval(kw, n, root, Obj(f), Obj([y]))
  {
    var i := Obj([y]);
    AnyObjectAccepts(kw, n, root, y);
    assert Eval(kw, n, root, Obj([]), i);
    TwoAccept(kw, n, root, f, Obj([]), ANY_OBJECT, i);
  }

  lemma TwoAccept(kw: Meaning, n: nat, root: Json, f: Fields, a: Json, b: Json, i: Json)
    requires f == [Field(OneOf, Arr([a, b]))] && Eval(kw, n, root, a, i) && Eval(kw, n, root, b, i)
    ensures !Eval(kw, n, root, Obj(f), i)
  {
    NotExactlyOne(kw, n, root, [a, b], 0, 1, i);
    OneOfFails(kw, n, root, f, [a, b], i);
  }

  lemma NotExactlyOne(kw: Meaning, n: nat, root: Json, xs: seq<Json>, j: nat, m: nat, i: Json)
    requires j < |xs| && m < |xs| && j != m && Eval(kw, n, root, xs[j], i) && Eval(kw, n, root, xs[m], i)
    ensures !ExactlyOne(kw, n, root, xs, i)
  {
  }

  lemma OneOfFails(kw: Meaning, n: nat, root: Json, f: Fields, xs: seq<Json>, i: Json)
    requires f == [Field(OneOf, Arr(xs))] && !ExactlyOne(kw, n, root, xs, i)
    ensures !Eval(kw, n, root, Obj(f), i)
  {
    Rejected(kw, n, root, f, f[0], i);
  }

  lemma AlternativeRewritten(root: Json, p: seq<nat>, limit: nat)
    requires ValidPath(root, p) && limit >= 1
    ensures NormNode(root, p, ANY_OBJECT, limit) == Ok(NO_MEMBERS)
    ensures NormNode(root, p, Obj([]), limit) == Ok(Obj([]))
  {
    AnyObjectShaped();
    NoMembersNormal(limit);
    ShapedOnly(root, p, ANY_OBJECT.fields, limit);
    EmptyFixed(root, p, limit);
  }

  lemma EmptyFixed(root: Json, p: seq<nat>, limit: nat)
    requires ValidPath(root, p) && limit >= 1
    ensures NormNode(root, p, Obj([]), limit) == Ok(Obj([]))
  {
    assert Normal(Obj([]), limit);
    NormalIsFixed(root, p, Obj([]), limit);
  }

  lemma AnyObjectShaped()
    ensures Shaped(ANY_OBJECT.fields) == NO_MEMBERS.fields
    ensures !Has(ANY_OBJECT.fields, Default) && !Inlines(ANY_OBJECT.fields)
  {
    var g := ANY_OBJECT.fields;
    assert Has(g, Properties) && forall k :: Has(g, k) ==> k == Properties;
    assert Names([]) == [];
    var d := g + [Field(AdditionalProperties, Bool(false))];
    assert SetDefaults(g) == d;
    IndexIs(d, Properties, 0);
    IndexIs(d, Required, 2);
  }

  lemma NoMembersNormal(limit: nat)
    requires limit >= 1
    ensures Normal(NO_MEMBERS, limit)
  {
    var r := NO_MEMBERS.fields;
    IndexIs(r, Properties, 0);
    IndexIs(r, AdditionalProperties, 1);
    IndexIs(r, Required, 2);
    assert Names([]) == [];
    assert forall k :: Has(r, k) ==> k in {Properties, Required, AdditionalProperties};
    assert NormalUnder(NO_MEMBERS, r, Properties, limit - 1);
  }

  lemma OneOfRewritten(f: Fields, r: Fields, limit: nat)
    requires f == [Field(OneOf, Arr([Obj([]), ANY_OBJECT]))] && r == [Field(OneOf, Arr([Obj([]), NO_MEMBERS]))]
    requires limit >= 2
    ensures Normalize(Obj(f), limit) == Ok(Obj(r))
  {
    var l := limit - 1;
    NodeOfDict(Obj(f), [], f, limit);
    OneOfOnly(f);
    AlternativesRewritten(f, l);
    OneOfKey(f, r, l);
    OneOfDict(Obj(f), [], f, r, l);
  }

  lemma OneOfDict(root: Json, p: seq<nat>, f: Fields, r: Fields, l: nat)
    requires |f| == 1 && f[0].key == OneOf && |r| == 1 && r[0].key == OneOf
    requires ValidPath(root, p) && NormKey(root, p, f, OneOf, l) == Ok(r)
    ensures NormDict(root, p, f, l) == Ok(Obj(r))
  {
    OneOfOnly(f);
    OneOfOnly(r);
    assert NormFirst(root, p, f, l) == Ok(f);
    assert NormLast(root, p, f, l) == Ok(r);
    assert NormTail(root, p, f, l) == Ok(Obj(r));
    assert NormPlain(root, p, f, l) == Ok(Obj(r));
  }

  lemma OneOfOnly(f: Fields)
    requires |f| == 1 && f[0].key == OneOf
    ensures Index(f, OneOf) == 0 && (forall k :: Has(f, k) ==> k == OneOf)
    ensures Drop(f, {Default}) == f && Shaped(f) == f && !Inlines(f) && !SingleAllOf(f)
  {
    DropNothing(f, {Default});
  }

  lemma OneOfKey(f: Fields, r: Fields, l: nat)
    requires |f| == 1 && f[0].key == OneOf && f[0].value.Arr? && ValidPath(Obj(f), [0]) && |r| == 1 && r[0].key == OneOf
    requires NormMembers(Obj(f), [0], f[0].value, 0, l) == Ok(r[0].value)
    ensures NormKey(Obj(f), [], f, OneOf, l) == Ok(r)
  {
    OneOfOnly(f);
    assert [] + [0] == [0] && f[0 := r[0]] == r;
  }

  lemma AlternativesRewritten(f: Fields, limit: nat)
    requires f == [Field(OneOf, Arr([Obj([]), ANY_OBJECT]))] && limit >= 1
    ensures [] + [0] == [0] && ValidPath(Obj(f), [0])
    ensures NormMembers(Obj(f), [0], f[0].value, 0, limit) == Ok(Arr([Obj([]), NO_MEMBERS]))
  {
    var c := f[0].value;
    PutChild(Obj(f), [], Obj(f), 0, c);
    assert [] + [0] == [0];
    PutChild(Obj(f), [0], c, 0, Child(c, 0));
    AlternativeRewritten(PutAt(Obj(f), [0], c), [0] + [0], limit);
    assert SetChild(c, 0, Obj([])) == c;
    PutChild(Obj(f), [0], c, 1, Child(c, 1));
    AlternativeRewritten(PutAt(Obj(f), [0], c), [0] + [1], limit);
    assert SetChild(c, 1, NO_MEMBERS) == Arr([Obj([]), NO_MEMBERS]);
    assert NormMembers(Obj(f), [0], c, 1, limit) == NormMembers(Obj(f), [0], Arr([Obj([]), NO_MEMBERS]), 2, limit);
  }

  // ---- a definition that is a bare `allOf` of a `$ref` -------------------------------------

  /** Whatever is written at `p`, the definition is `d`. */
  ghost predicate Defines(root: Json, p: seq<nat>, key: DefKey, d: Json) {
    ValidPath(root, p) && forall v :: Def(PutAt(root, p, v), key) == Some(d)
  }

  /** `{"allOf": [{"$ref": rb}]}`, which the rewriter turns into `{"$ref": rb}`. */
  function Wrapped(rb: string): Fields {
    [Field(AllOf, Arr([Obj([Field(Ref, Str(rb))])]))]
  }

  lemma DefinesResolve(root: Json, p: seq<nat>, ref: string, d: Fields, n: Json)
    requires Names2(ref).Some? && Defines(root, p, Names2(ref).value, Obj(d))
    ensures Resolve(PutAt(root, p, n), ref) == Ok(d)
  {
    ResolveDef(PutAt(root, p, n), ref);
  }

  predicate Titled(a: Fields) {
    |a| <= 1 && forall i | 0 <= i < |a| :: a[i].key.Text?
  }

  lemma WrappedShape(a: Fields, rb: string)
    requires Titled(a)
    ensures var f := a + Wrapped(rb);
            && Drop(f, {Default}) == f && !Inlines(f) && Shaped(f) == f
            && Get(f, AllOf) == Some(Wrapped(rb)[0].value)
            && forall k | k in FIRST_KEYS :: !Has(f, k)
  {
    var f := a + Wrapped(rb);
    DropNothing(f, {Default});
    IndexIs(f, AllOf, |a|);
    assert forall k :: Has(f, k) ==> k == AllOf || k.Text?;
  }

  lemma WrappedMerge(a: Fields, rb: string)
    requires Titled(a)
    ensures Collapsed(a + Wrapped(rb), [Field(Ref, Str(rb))]) == a + [Field(Ref, Str(rb))]
  {
    var f, m := a + Wrapped(rb), [Field(Ref, Str(rb))];
    DropNothing(m, KeySet(f));
    assert Merge(f, m) == a + (Wrapped(rb) + m);
    DropAppend(a, Wrapped(rb) + m, {AllOf});
    DropNothing(a, {AllOf});
    DropAppend(Wrapped(rb), m, {AllOf});
    DropNothing(m, {AllOf});
    assert Drop(Wrapped(rb), {AllOf}) == Drop([], {AllOf}) == [];
  }

  /** Both rewrites of such a dictionary end in collapsing it. */
  lemma WrappedCollapses(root: Json, p: seq<nat>, a: Fields, rb: string, limit: nat)
    requires ValidPath(root, p) && Titled(a) && limit > 0
    ensures NormNode(root, p, Obj(a + Wrapped(rb)), limit) ==
            NormNode(root, p, Obj(a + [Field(Ref, Str(rb))]), limit - 1)
  {
    var f := a + Wrapped(rb);
    WrappedShape(a, rb);
    WrappedMerge(a, rb);
    NodeOfDict(root, p, f, limit);
    SingleCollapses(root, p, f, limit - 1);
  }

  lemma SingleCollapses(root: Json, p: seq<nat>, f: Fields, l: nat)
    requires ValidPath(root, p) && Drop(f, {Default}) == f && !Inlines(f) && Shaped(f) == f
    requires SingleAllOf(f) && Member(f).Obj? && forall k | k in FIRST_KEYS :: !Has(f, k)
    ensures NormDict(root, p, f, l) == NormNode(root, p, Obj(Collapsed(f, Member(f).fields)), l)
  {
    assert NormFirst(root, p, f, l) == Ok(f);
    assert NormPlain(root, p, f, l) == NormTail(root, p, f, l);
  }

  lemma LeafFixed(root: Json, p: seq<nat>, x: Field, limit: nat)
    requires ValidPath(root, p) && limit > 0 && (x.key == Ref || x.key.Text?)
    ensures NormNode(root, p, Obj([x]), limit) == Ok(Obj([x]))
  {
    LeafNormal(x, limit);
    NormalIsFixed(root, p, Obj([x]), limit);
  }

  lemma PairNormal(a: Field, b: Field, d: nat)
    requires a.key.Text? && b.key.Text? && d > 0
    ensures Normal(Obj([a, b]), d)
  {
    assert forall k :: Has([a, b], k) ==> k.Text?;
  }

  /** `{"$ref": r, k: v}` with `r` naming a dictionary of one field. */
  lemma PointingRewritten(root: Json, p: seq<nat>, f: Fields, ref: string, k: Name, v: Json, d: Field, limit: nat)
    requires k.Text? && d.key != k && limit > 0
    requires f == Pointing(ref, k, v).fields || f == [Field(k, v), Field(Ref, Str(ref))]
    requires Names2(ref).Some? && Defines(root, p, Names2(ref).value, Obj([d]))
    ensures NormNode(root, p, Obj(f), limit) ==
            NormNode(root, p, Obj([Field(k, v)] + if d.key == Ref then [] else [d]), limit - 1)
  {
    DropNothing(f, {Default});
    IndexIs(f, Ref, if f[0].key == Ref then 0 else 1);
    DefinesResolve(root, p, ref, [d], Obj(f));
    InlinedPointing(f, ref, k, v, d);
    InlineStep(root, p, f, ref, [d], limit);
  }

  lemma InlinedPointing(f: Fields, ref: string, k: Name, v: Json, d: Field)
    requires k.Text? && d.key != k
    requires f == Pointing(ref, k, v).fields || f == [Field(k, v), Field(Ref, Str(ref))]
    ensures Inlined(f, [d]) == [Field(k, v)] + if d.key == Ref then [] else [d]
  {
    IndexIs(f, Ref, if f[0].key == Ref then 0 else 1);
    var e := if d.key == Ref then [] else [d];
    DropKeyed(f, [d], Ref);
    assert Drop([d], {Ref}) == e;
    DropNothing(e, KeySet(f));
    DropAppend(f, e, {Ref});
    DropNothing(e, {Ref});
    if f[0].key == Ref {
      assert f[1..] == [Field(k, v)];
      DropNothing(f[1..], {Ref});
    } else {
      assert f[1..] == [Field(Ref, Str(ref))] && Drop(f[1..], {Ref}) == Drop([], {Ref});
    }
  }

  /**
   With `d: {"allOf": [{"$ref": rb}]}` and `b: {y}`, the node `{"$ref": rd, k: v}` becomes
   `{k: v, y}` as long as `d` has not been rewritten, and `{k: v}` once it has: what the code returns
   depends on the order in which definitions are listed.
   */
  lemma WrappedTargetDependsOnOrder(
      root: Json, p: seq<nat>, rd: string, rb: string, k: Name, v: Json, y: Field, limit: nat)
    requires Names2(rd).Some? && Names2(rb).Some? && Names2(rd) != Names2(rb)
    requires k.Text? && y.key.Text? && y.key != k && limit >= 4 && ValidPath(root, p)
    ensures NormNode(root, p, Obj(Wrapped(rb)), limit) == Ok(Obj([Field(Ref, Str(rb))]))
    ensures Defines(root, p, Names2(rd).value, Obj(Wrapped(rb))) && Defines(root, p, Names2(rb).value, Obj([y])) ==>
              NormNode(root, p, Pointing(rd, k, v), limit) == Ok(Obj([Field(k, v), y]))
    ensures Defines(root, p, Names2(rd).value, Obj([Field(Ref, Str(rb))])) ==>
              NormNode(root, p, Pointing(rd, k, v), limit) == Ok(Obj([Field(k, v)]))
  {
    WrappedBecomesRef(root, p, rb, limit);
    if Defines(root, p, Names2(rd).value, Obj(Wrapped(rb))) && Defines(root, p, Names2(rb).value, Obj([y])) {
      BeforeWrapped(root, p, rd, rb, k, v, y, limit);
    }
    if Defines(root, p, Names2(rd).value, Obj([Field(Ref, Str(rb))])) {
      AfterWrapped(root, p, rd, rb, k, v, limit);
    }
  }

  lemma WrappedBecomesRef(root: Json, p: seq<nat>, rb: string, limit: nat)
    requires ValidPath(root, p) && limit >= 2
    ensures NormNode(root, p, Obj(Wrapped(rb)), limit) == Ok(Obj([Field(Ref, Str(rb))]))
  {
    var ref := Field(Ref, Str(rb));
    WrappedCollapses(root, p, [], rb, limit);
    assert [] + Wrapped(rb) == Wrapped(rb) && [] + [ref] == [ref];
    LeafFixed(root, p, ref, limit - 1);
  }

  lemma BeforeWrapped(root: Json, p: seq<nat>, rd: string, rb: string, k: Name, v: Json, y: Field, limit: nat)
    requires Names2(rd).Some? && Names2(rb).Some? && k.Text? && y.key.Text? && y.key != k && limit >= 4
    requires Defines(root, p, Names2(rd).value, Obj(Wrapped(rb))) && Defines(root, p, Names2(rb).value, Obj([y]))
    ensures NormNode(root, p, Pointing(rd, k, v), limit) == Ok(Obj([Field(k, v), y]))
  {
    PointingRewritten(root, p, Pointing(rd, k, v).fields, rd, k, v, Wrapped(rb)[0], limit);
    WrappedThenInlined(root, p, rb, Field(k, v), y, limit - 1);
  }

  lemma WrappedThenInlined(root: Json, p: seq<nat>, rb: string, kv: Field, y: Field, limit: nat)
    requires Names2(rb).Some? && kv.key.Text? && y.key.Text? && y.key != kv.key && limit >= 3
    requires Defines(root, p, Names2(rb).value, Obj([y]))
    ensures NormNode(root, p, Obj([kv] + Wrapped(rb)), limit) == Ok(Obj([kv, y]))
  {
    var ref := Field(Ref, Str(rb));
    WrappedCollapses(root, p, [kv], rb, limit);
    assert [kv] + [ref] == [kv, ref] && [kv] + [y] == [kv, y];
    PointingRewritten(root, p, [kv, ref], rb, kv.key, kv.value, y, limit - 1);
    PairFixed(root, p, kv, y, limit - 2);
  }

  lemma PairFixed(root: Json, p: seq<nat>, a: Field, b: Field, limit: nat)
    requires ValidPath(root, p) && a.key.Text? && b.key.Text? && limit > 0
    ensures NormNode(root, p, Obj([a, b]), limit) == Ok(Obj([a, b]))
  {
    PairNormal(a, b, limit);
    NormalIsFixed(root, p, Obj([a, b]), limit);
  }

  lemma AfterWrapped(root: Json, p: seq<nat>, rd: string, rb: string, k: Name, v: Json, limit: nat)
    requires Names2(rd).Some? && k.Text? && limit >= 2 && Defines(root, p, Names2(rd).value, Obj([Field(Ref, Str(rb))]))
    ensures NormNode(root, p, Pointing(rd, k, v), limit) == Ok(Obj([Field(k, v)]))
  {
    var kv := Field(k, v);
    PointingRewritten(root, p, Pointing(rd, k, v).fields, rd, k, v, Field(Ref, Str(rb)), limit);
    assert [kv] + [] == [kv];
    LeafFixed(root, p, kv, limit - 1);
  }

  // ---- the same definitions in two orders --------------------------------------------------

  /** `{"$defs": c}`. */
  function DefsOnly(c: Fields): Fields {
    [Field(Defs, Obj(c))]
  }

  lemma DefsOnlyShape(c: Fields)
    ensures var f := DefsOnly(c);
            && Index(f, Defs) == 0 && (forall k :: Has(f, k) ==> k == Defs)
            && Drop(f, {Default}) == f && Shaped(f) == f && !Inlines(f) && !SingleAllOf(f)
  {
    DropNothing(DefsOnly(c), {Default});
  }

  /** While one definition is rewritten, the others are what they are. */
  lemma OtherDefined(c: Fields, j: nat, name: Name, d: Json)
    requires j < |c| && Get(c, name) == Some(d) && Index(c, name) != j
    ensures Defines(Obj(DefsOnly(c)), [0] + [j], (Defs, name), d)
  {
    DefsOnlyShape(c);
    StepAt(c, j);
    forall v
      ensures ValidPath(Obj(DefsOnly(c)), [0] + [j])
      ensures Def(PutAt(Obj(DefsOnly(c)), [0] + [j], v), (Defs, name)) == Some(d)
    {
      I.PutMember(DefsOnly(c), Defs, j, v);
      DefAfter(DefsOnly(c), Defs, j, v, (Defs, name));
    }
  }

  /** One definition rewritten in place. */
  lemma DefStep(c0: Fields, c: Fields, j: nat, v: Json, limit: nat)
    requires j < |c| && ValidPath(Obj(DefsOnly(c)), [0] + [j])
    requires NormNode(Obj(DefsOnly(c)), [0] + [j], c[j].value, limit) == Ok(v)
    ensures ValidPath(Obj(DefsOnly(c0)), [0])
    ensures NormMembers(Obj(DefsOnly(c0)), [0], Obj(c), j, limit) ==
            NormMembers(Obj(DefsOnly(c0)), [0], Obj(c[j := Field(c[j].key, v)]), j + 1, limit)
  {
    PutChild(Obj(DefsOnly(c0)), [], Obj(DefsOnly(c0)), 0, Obj(c));
    assert [] + [0] == [0];
    assert PutAt(Obj(DefsOnly(c0)), [0], Obj(c)) == Obj(DefsOnly(c));
    MembersStep(Obj(DefsOnly(c0)), [0], Obj(c), j, limit, v);
    assert SetChild(Obj(c), j, v) == Obj(c[j := Field(c[j].key, v)]);
  }

  lemma DefsOnlyRewritten(c: Fields, r: Fields, limit: nat)
    requires limit > 0 && ValidPath(Obj(DefsOnly(c)), [0])
    requires NormMembers(Obj(DefsOnly(c)), [0], Obj(c), 0, limit - 1) == Ok(Obj(r))
    ensures Normalize(Obj(DefsOnly(c)), limit) == Ok(Obj(DefsOnly(r)))
  {
    var f, l := DefsOnly(c), limit - 1;
    DefsOnlyShape(c);
    DefsOnlyShape(r);
    NodeOfDict(Obj(f), [], f, limit);
    assert [] + [0] == [0] && f[0 := Field(Defs, Obj(r))] == DefsOnly(r);
    assert NormKey(Obj(f), [], f, Defs, l) == Ok(DefsOnly(r));
    DefsOnlyDict(f, DefsOnly(r), l);
  }

  lemma DefsOnlyDict(f: Fields, r: Fields, l: nat)
    requires Drop(f, {Default}) == f && Shaped(f) == f && !Inlines(f) && (forall k :: Has(f, k) ==> k == Defs)
    requires !SingleAllOf(r) && (forall k :: Has(r, k) ==> k == Defs) && NormKey(Obj(f), [], f, Defs, l) == Ok(r)
    ensures NormDict(Obj(f), [], f, l) == Ok(Obj(r))
  {
    assert NormFirst(Obj(f), [], f, l) == Ok(r);
    assert NormLast(Obj(f), [], r, l) == Ok(r);
    assert NormPlain(Obj(f), [], f, l) == NormTail(Obj(f), [], r, l);
  }

  /** The three definitions: the wrapper `d`, what it wraps, `b`, and the node `n` that points to `d`. */
  datatype Trio = Trio(d: Name, b: Name, n: Name, rd: string, rb: string, kv: Field, y: Field) {
    predicate Valid() {
      && d != b && d != n && b != n && kv.key.Text? && y.key.Text? && y.key != kv.key
      && Names2(rd) == Some((Defs, d)) && Names2(rb) == Some((Defs, b))
    }
    function Wrapper(): Field { Field(d, Obj(Wrapped(rb))) }
    function Unwrapped(): Field { Field(d, Obj([Field(Ref, Str(rb))])) }
    function Base(): Field { Field(b, Obj([y])) }
    function Node(): Field { Field(n, Pointing(rd, kv.key, kv.value)) }
  }

  /** The loop over the definitions, from `j` on. */
  function Rest(c0: Fields, c: Fields, j: nat, limit: nat): Result<Json>
    requires ValidPath(Obj(DefsOnly(c0)), [0])
  {
    NormMembers(Obj(DefsOnly(c0)), [0], Obj(c), j, limit)
  }

  lemma WrapperStep(t: Trio, c0: Fields, c: Fields, j: nat, limit: nat)
    requires j < |c| && c[j] == t.Wrapper() && limit >= 2
    ensures ValidPath(Obj(DefsOnly(c0)), [0]) && Rest(c0, c, j, limit) == Rest(c0, c[j := t.Unwrapped()], j + 1, limit)
  {
    StepAt(c, j);
    WrappedBecomesRef(Obj(DefsOnly(c)), [0] + [j], t.rb, limit);
    DefStep(c0, c, j, t.Unwrapped().value, limit);
  }

  lemma BaseStep(t: Trio, c0: Fields, c: Fields, j: nat, limit: nat)
    requires t.Valid() && j < |c| && c[j] == t.Base() && limit >= 1
    ensures ValidPath(Obj(DefsOnly(c0)), [0]) && Rest(c0, c, j, limit) == Rest(c0, c, j + 1, limit)
  {
    StepAt(c, j);
    LeafFixed(Obj(DefsOnly(c)), [0] + [j], t.y, limit);
    DefStep(c0, c, j, t.Base().value, limit);
    assert c[j := Field(c[j].key, t.Base().value)] == c;
  }

  lemma NodeStepAfter(t: Trio, c0: Fields, c: Fields, j: nat, limit: nat)
    requires t.Valid() && j < |c| && c[j] == t.Node() && limit >= 2
    requires Get(c, t.d) == Some(t.Unwrapped().value) && Index(c, t.d) != j
    ensures ValidPath(Obj(DefsOnly(c0)), [0]) &&
            Rest(c0, c, j, limit) == Rest(c0, c[j := Field(t.n, Obj([t.kv]))], j + 1, limit)
  {
    OtherDefined(c, j, t.d, t.Unwrapped().value);
    AfterWrapped(Obj(DefsOnly(c)), [0] + [j], t.rd, t.rb, t.kv.key, t.kv.value, limit);
    DefStep(c0, c, j, Obj([t.kv]), limit);
  }

  lemma NodeStepBefore(t: Trio, c0: Fields, c: Fields, j: nat, limit: nat)
    requires t.Valid() && j < |c| && c[j] == t.Node() && limit >= 4
    requires Get(c, t.d) == Some(t.Wrapper().value) && Index(c, t.d) != j
    requires Get(c, t.b) == Some(t.Base().value) && Index(c, t.b) != j
    ensures ValidPath(Obj(DefsOnly(c0)), [0]) &&
            Rest(c0, c, j, limit) == Rest(c0, c[j := Field(t.n, Obj([t.kv, t.y]))], j + 1, limit)
  {
    OtherDefined(c, j, t.d, t.Wrapper().value);
    OtherDefined(c, j, t.b, t.Base().value);
    BeforeWrapped(Obj(DefsOnly(c)), [0] + [j], t.rd, t.rb, t.kv.key, t.kv.value, t.y, limit);
    DefStep(c0, c, j, Obj([t.kv, t.y]), limit);
  }

  /** With the wrapper listed first, the node loses what it points to. */
  lemma WrapperFirst(t: Trio, limit: nat)
    requires t.Valid() && limit >= 5
    ensures Normalize(Obj(DefsOnly([t.Wrapper(), t.Base(), t.Node()])), limit) ==
            Ok(Obj(DefsOnly([t.Unwrapped(), t.Base(), Field(t.n, Obj([t.kv]))])))
  {
    WrapperFirstLoop(t, limit - 1);
    DefsOnlyRewritten([t.Wrapper(), t.Base(), t.Node()], [t.Unwrapped(), t.Base(), Field(t.n, Obj([t.kv]))], limit);
  }

  lemma WrapperFirstLoop(t: Trio, limit: nat)
    requires t.Valid() && limit >= 4
    ensures var c0, c2 := [t.Wrapper(), t.Base(), t.Node()], [t.Unwrapped(), t.Base(), Field(t.n, Obj([t.kv]))];
            ValidPath(Obj(DefsOnly(c0)), [0]) && Rest(c0, c0, 0, limit) == Ok(Obj(c2))
  {
    var c0, c1 := [t.Wrapper(), t.Base(), t.Node()], [t.Unwrapped(), t.Base(), t.Node()];
    WrapperStep(t, c0, c0, 0, limit);
    assert c0[0 := t.Unwrapped()] == c1;
    BaseStep(t, c0, c1, 1, limit);
    NodeLast(t, c0, c1, limit);
  }

  lemma NodeLast(t: Trio, c0: Fields, c: Fields, limit: nat)
    requires t.Valid() && limit >= 4 && c == [t.Unwrapped(), t.Base(), t.Node()]
    ensures ValidPath(Obj(DefsOnly(c0)), [0])
    ensures Rest(c0, c, 2, limit) == Ok(Obj([t.Unwrapped(), t.Base(), Field(t.n, Obj([t.kv]))]))
  {
    IndexIs(c, t.d, 0);
    NodeStepAfter(t, c0, c, 2, limit);
    var c2 := [t.Unwrapped(), t.Base(), Field(t.n, Obj([t.kv]))];
    assert c[2 := Field(t.n, Obj([t.kv]))] == c2;
    RestDone(c0, c2, limit);
  }

  /** With the node listed first, it keeps it. */
  lemma NodeFirst(t: Trio, limit: nat)
    requires t.Valid() && limit >= 5
    ensures Normalize(Obj(DefsOnly([t.Node(), t.Wrapper(), t.Base()])), limit) ==
            Ok(Obj(DefsOnly([Field(t.n, Obj([t.kv, t.y])), t.Unwrapped(), t.Base()])))
  {
    var l, n := limit - 1, Field(t.n, Obj([t.kv, t.y]));
    var c0, c1, c2 := [t.Node(), t.Wrapper(), t.Base()], [n, t.Wrapper(), t.Base()], [n, t.Unwrapped(), t.Base()];
    IndexIs(c0, t.d, 1);
    IndexIs(c0, t.b, 2);
    NodeStepBefore(t, c0, c0, 0, l);
    assert c0[0 := n] == c1;
    WrapperStep(t, c0, c1, 1, l);
    assert c1[1 := t.Unwrapped()] == c2;
    BaseStep(t, c0, c2, 2, l);
    RestDone(c0, c2, l);
    DefsOnlyRewritten(c0, c2, limit);
  }

  lemma RestDone(c0: Fields, c: Fields, limit: nat)
    requires ValidPath(Obj(DefsOnly(c0)), [0])
    ensures Rest(c0, c, |c|, limit) == Ok(Obj(c))
  {
  }

  lemma StepAt(c: Fields, j: nat)
    requires j < |c|
    ensures ValidPath(Obj(DefsOnly(c)), [0] + [j])
  {
    DefsOnlyShape(c);
    I.PutMember(DefsOnly(c), Defs, j, Null);
  }

  /**
   Two documents that differ only in the order of their definitions: in one the node `n` becomes `{k: v}`,
   in the other `{k: v, y}`.
   */
  lemma DefinitionOrderMatters(t: Trio, limit: nat)
    requires t.Valid() && limit >= 5
    ensures var one, other := [t.Wrapper(), t.Base(), t.Node()], [t.Node(), t.Wrapper(), t.Base()];
            && multiset(one) == multiset(other)
            && var r, s := Normalize(Obj(DefsOnly(one)), limit), Normalize(Obj(DefsOnly(other)), limit);
               && r.Ok? && Def(r.value, (Defs, t.n)) == Some(Obj([t.kv]))
               && s.Ok? && Def(s.value, (Defs, t.n)) == Some(Obj([t.kv, t.y]))
  {
    WrapperFirst(t, limit);
    NodeFirst(t, limit);
    var a := [t.Unwrapped(), t.Base(), Field(t.n, Obj([t.kv]))];
    var b := [Field(t.n, Obj([t.kv, t.y])), t.Unwrapped(), t.Base()];
    DefOfDefsOnly(a, t.n, 2);
    DefOfDefsOnly(b, t.n, 0);
  }

  lemma DefOfDefsOnly(c: Fields, name: Name, i: nat)
    requires i < |c| && c[i].key == name && forall j | 0 <= j < i :: c[j].key != name
    ensures Def(Obj(DefsOnly(c)), (Defs, name)) == Some(c[i].value)
  {
    DefsOnlyShape(c);
    IndexIs(c, name, i);
  }

  // ---- recursion through a bare `allOf` of a `$ref` is no obstacle -------------------------

  /** `{"$defs": {name: {"items": {"allOf": [{"$ref": ref}]}}}}`, where the `$ref` may name that definition. */
  function Recursive(name: Name, ref: string): Fields {
    DefsOnly([Field(name, Obj([Field(Items, Obj(Wrapped(ref)))]))])
  }

  lemma OneField(x: Field)
    requires x.key != Default
    ensures Drop([x], {Default}) == [x] && !Inlines([x]) && Index([x], x.key) == 0 &&
            (forall k :: Has([x], k) ==> k == x.key)
  {
    DropNothing([x], {Default});
  }

  lemma OneFieldRefs(x: Field)
    requires x.key != Default
    ensures SA.Refs(Obj([x])) == SA.FieldRefs(x)
  {
    OneField(x);
    assert [x][1..] == [] && SA.FieldsRefs([]) == {};
  }

  lemma RecursiveRefs(name: Name, ref: string)
    ensures SA.Refs(Obj(Recursive(name, ref))) == {} && SA.Refs(Obj([Field(Items, Obj(Wrapped(ref)))])) == {}
  {
    var leaf, w, x := Field(Ref, Str(ref)), Wrapped(ref)[0], Field(Items, Obj(Wrapped(ref)));
    OneFieldRefs(leaf);
    assert SA.Refs(Obj([leaf])) == {};
    assert w.value.items == [Obj([leaf])] && w.value.items[1..] == [];
    assert SA.ItemsRefs(w.value.items) == SA.Refs(Obj([leaf])) + SA.ItemsRefs([]);
    OneFieldRefs(w);
    assert SA.Refs(Obj([w])) == {};
    OneFieldRefs(x);
    var c := [Field(name, Obj([x]))];
    assert c[1..] == [];
    assert SA.ValuesRefs(c) == SA.ValueRefs(c[0]) + SA.ValuesRefs([]);
    OneFieldRefs(Field(Defs, Obj(c)));
  }

  lemma RecursiveDomain(t: Table, name: Name, ref: string)
    ensures Domain(t, Obj(Recursive(name, ref)))
  {
    var leaf, w, x := Field(Ref, Str(ref)), Wrapped(ref)[0], Field(Items, Obj(Wrapped(ref)));
    OneField(leaf);
    OneField(w);
    OneField(x);
    assert FieldDomain(t, leaf);
    assert FieldsDomain(t, [leaf]);
    assert Domain(t, Obj([leaf]));
    assert Member([w]) == Obj([leaf]);
    assert MembersDomain(t, w.value);
    assert FieldsDomain(t, [w]);
    assert Domain(t, Obj([w]));
    assert FieldsDomain(t, [x]);
    assert Domain(t, Obj([x]));
    var c := [Field(name, Obj([x]))];
    OneField(Field(Defs, Obj(c)));
    assert ValueDomain(t, c[0]);
    assert MembersDomain(t, Obj(c));
    assert FieldsDomain(t, DefsOnly(c));
  }

  lemma RecursiveUnique(name: Name, ref: string)
    ensures Unique(Obj(Recursive(name, ref)))
  {
    var leaf, w, x := Field(Ref, Str(ref)), Wrapped(ref)[0], Field(Items, Obj(Wrapped(ref)));
    ObjUnique([leaf]);
    assert Child(w.value, 0) == Obj([leaf]);
    assert Unique(w.value);
    ObjUnique([w]);
    ObjUnique([x]);
    ObjUnique([Field(name, Obj([x]))]);
    ObjUnique(Recursive(name, ref));
  }

  lemma RecursiveHarmless(kw: Meaning, name: Name, ref: string)
    ensures R.Harmless(kw, Obj(Recursive(name, ref)))
  {
    var leaf, w, x := Field(Ref, Str(ref)), Wrapped(ref)[0], Field(Items, Obj(Wrapped(ref)));
    OneField(leaf);
    OneField(w);
    OneField(x);
    assert R.FieldHarmless(kw, leaf);
    assert R.Harmless(kw, Obj([leaf]));
    assert R.MembersHarmless(kw, w.value);
    assert R.FieldHarmless(kw, w);
    assert R.Harmless(kw, Obj([w]));
    assert R.FieldHarmless(kw, x);
    assert R.Harmless(kw, Obj([x]));
    var c := [Field(name, Obj([x]))];
    OneField(Field(Defs, Obj(c)));
    assert R.ValueHarmless(kw, c[0]);
    assert R.MembersHarmless(kw, Obj(c));
    assert R.FieldHarmless(kw, Field(Defs, Obj(c)));
  }

  lemma RecursiveSound(kw: Meaning, root: Json, keys: set<DefKey>, name: Name, ref: string)
    requires R.KnownRef(keys, ref)
    ensures R.Sound(kw, root, keys, Obj(Recursive(name, ref)))
  {
    var leaf, w, x := Field(Ref, Str(ref)), Wrapped(ref)[0], Field(Items, Obj(Wrapped(ref)));
    assert R.SoundField(kw, root, keys, leaf);
    assert R.Sound(kw, root, keys, Obj([leaf]));
    assert R.SoundItems(kw, root, keys, w.value.items);
    assert R.SoundField(kw, root, keys, w);
    assert R.Sound(kw, root, keys, Obj([w]));
    assert R.SoundField(kw, root, keys, x);
    assert R.Sound(kw, root, keys, Obj([x]));
    var c := [Field(name, Obj([x]))];
    assert R.SoundValue(kw, root, keys, c[0]);
    assert R.SoundValues(kw, root, keys, c);
    assert R.SoundField(kw, root, keys, Field(Defs, Obj(c)));
  }

  /** Such a schema, recursive without bound, is among those of the halting and refinement theorems. */
  lemma BareAllOfRecursionIsCovered(kw: Meaning, name: Name, ref: string)
    requires Names2(ref) == Some((Defs, name))
    ensures R.Refinable(kw, map[(Defs, name) := 0], {}, Recursive(name, ref))
  {
    var rank: SA.Ranks := map[(Defs, name) := 0];
    RecursiveOrderFree(rank, name, ref);
    RecursiveHarmless(kw, name, ref);
    RecursiveSound(kw, Obj(Recursive(name, ref)), rank.Keys, name, ref);
  }

  lemma RecursiveOrderFree(rank: SA.Ranks, name: Name, ref: string)
    requires rank == map[(Defs, name) := 0]
    ensures F.OrderFree(rank, {}, Recursive(name, ref))
  {
    RecursiveRefs(name, ref);
    RecursiveDomain(F.Shell(rank, {}), name, ref);
    RecursiveUnique(name, ref);
    var x := Field(name, Obj([Field(Items, Obj(Wrapped(ref)))]));
    DefOfDefsOnly([x], name, 0);
  }

  // ---- a cycle that is lost ----------------------------------------------------------------

  /** `{"title": ..., "allOf": [{"$ref": ref}]}`. */
  function TitledWrap(kv: Field, ref: string): Fields {
    [kv] + Wrapped(ref)
  }

  lemma SelfMerged(kv: Field, ref: string)
    requires kv.key.Text?
    ensures var f := [kv, Field(Ref, Str(ref))];
            Drop(f, {Default}) == f && Inlines(f) && StrRef(f) == Some(ref) && Inlined(f, f) == [kv]
  {
    var f := [kv, Field(Ref, Str(ref))];
    DropNothing(f, {Default});
    IndexIs(f, Ref, 1);
    DropAll(f, KeySet(f));
    assert Merge(f, f) == f && f[1..] == [f[1]] && f[1..][1..] == [];
    assert Drop(f, {Ref}) == [kv] + Drop(f[1..], {Ref}) && Drop(f[1..], {Ref}) == Drop([], {Ref}) == [];
  }

  lemma {:induction false} DropAll(f: Fields, ks: set<Name>)
    requires forall i | 0 <= i < |f| :: f[i].key in ks
    ensures Drop(f, ks) == []
  {
    if f != [] { DropAll(f[1..], ks); }
  }

  /** Where the definition itself stands, its `$ref` resolves to what the node has become and is dropped. */
  lemma SelfWrappedNode(name: Name, ref: string, kv: Field, limit: nat)
    requires Names2(ref) == Some((Defs, name)) && kv.key.Text? && limit >= 3
    ensures var c := [Field(name, Obj(TitledWrap(kv, ref)))];
            ValidPath(Obj(DefsOnly(c)), [0] + [0]) &&
            NormNode(Obj(DefsOnly(c)), [0] + [0], c[0].value, limit) == Ok(Obj([kv]))
  {
    var c, f := [Field(name, Obj(TitledWrap(kv, ref)))], [kv, Field(Ref, Str(ref))];
    var root, p := Obj(DefsOnly(c)), [0] + [0];
    StepAt(c, 0);
    WrappedCollapses(root, p, [kv], ref, limit);
    assert [kv] + [Field(Ref, Str(ref))] == f;
    SelfResolves(name, ref, c, f);
    SelfMerged(kv, ref);
    InlineStep(root, p, f, ref, f, limit - 1);
    LeafFixed(root, p, kv, limit - 2);
  }

  lemma SelfResolves(name: Name, ref: string, c: Fields, f: Fields)
    requires Names2(ref) == Some((Defs, name)) && |c| == 1 && c[0].key == name && ValidPath(Obj(DefsOnly(c)), [0] + [0])
    ensures Resolve(PutAt(Obj(DefsOnly(c)), [0] + [0], Obj(f)), ref) == Ok(f)
  {
    DefsOnlyShape(c);
    I.PutMember(DefsOnly(c), Defs, 0, Obj(f));
    var d := [Field(name, Obj(f))];
    assert SetChild(Obj(c), 0, Obj(f)) == Obj(d);
    assert PutAt(Obj(DefsOnly(c)), [0] + [0], Obj(f)) == Obj(DefsOnly(d));
    DefOfDefsOnly(d, name, 0);
    ResolveDef(Obj(DefsOnly(d)), ref);
  }

  lemma SelfWrappedRefs(name: Name, ref: string, kv: Field)
    requires kv.key.Text?
    ensures ref in SA.Refs(Obj(TitledWrap(kv, ref))) &&
            ref in SA.Refs(Obj(DefsOnly([Field(name, Obj(TitledWrap(kv, ref)))])))
  {
    var d := TitledWrap(kv, ref);
    DropNothing(d, {Default});
    IndexIs(d, AllOf, 1);
    var x := Member(d).fields;
    IndexIs(x, Ref, 0);
    assert ref in SA.MemberRefs(d);
    var c := [Field(name, Obj(d))];
    assert c[1..] == [];
    assert SA.ValuesRefs(c) == SA.ValueRefs(c[0]) + SA.ValuesRefs([]);
    OneFieldRefs(Field(Defs, Obj(c)));
  }

  /**
   Not every cycle keeps the rewriter from returning: a definition that is a single `allOf` of itself with a title
   admits no ranks, and yet the rewriter returns, having lost the `$ref` where the node met itself.
   */
  lemma SelfWrappedReturns(name: Name, ref: string, kv: Field, limit: nat)
    requires Names2(ref) == Some((Defs, name)) && kv.key.Text? && limit >= 4
    ensures var schema := DefsOnly([Field(name, Obj(TitledWrap(kv, ref)))]);
            && Normalize(Obj(schema), limit) == Ok(Obj(DefsOnly([Field(name, Obj([kv]))])))
            && forall rank, targets :: !SA.Acyclic(rank, targets, {}, schema)
  {
    var c, r := [Field(name, Obj(TitledWrap(kv, ref)))], [Field(name, Obj([kv]))];
    SelfWrappedNode(name, ref, kv, limit - 1);
    DefStep(c, c, 0, Obj([kv]), limit - 1);
    assert c[0 := Field(name, Obj([kv]))] == r;
    RestDone(c, r, limit - 1);
    DefsOnlyRewritten(c, r, limit);
    SelfWrappedRefs(name, ref, kv);
    DefOfDefsOnly(c, name, 0);
    forall rank: SA.Ranks, targets: set<DefKey> ensures !SA.Acyclic(rank, targets, {}, DefsOnly(c)) {
      SelfUnranked(rank, targets, DefsOnly(c), (Defs, name), ref);
    }
  }

  lemma SelfUnranked(rank: SA.Ranks, targets: set<DefKey>, schema: Fields, key: DefKey, ref: string)
    requires Names2(ref) == Some(key) && ref in SA.Refs(Obj(schema)) && Def(Obj(schema), key).Some?
    requires ref in SA.Refs(Def(Obj(schema), key).value)
    ensures !SA.Acyclic(rank, targets, {}, schema)
  {
  }
}
