/**
 The other half of termination: a definition from which `$ref`s with siblings lead back into a cycle is never
 finished, whatever the recursion limit, so that on schemas whose inlined definitions hold their `$ref`s below
 the top the rewriter returns exactly if there is no cycle.
 */
module SchemaCycles {
  import opened Options
  import opened Json
  import opened SchemaNormalizer
  import opened SchemaDefinitions
  import opened SchemaNormalForm

  const NESTED_KEYS := {Properties, Items, AnyOf, OneOf, AllOf}

  // ---- nodes that lead into a cycle --------------------------------------------------------

  predicate Cyclic(c: set<DefKey>, ref: string) {
    Names2(ref).Some? && Names2(ref).value in c
  }

  predicate Nestless(f: Fields, ks: set<Name>) {
    forall k | k in NESTED_KEYS - ks :: !Has(f, k)
  }

  /** A rewrite of `n` inlines one of the definitions `c` sooner or later. */
  ghost predicate Hits(c: set<DefKey>, n: Json)
    decreases n, 3
  {
    match n
    case Obj(f) => OwnHit(c, Drop(f, {Default})) || InnerHit(c, n, f) || SoleHit(c, n, f)
    case Arr(_) => MembersHit(c, n)
    case _ => false
  }

  /** By its own `$ref`, which has siblings that hide nothing of the target. */
  predicate OwnHit(c: set<DefKey>, g: Fields) {
    Inlines(g) && Cyclic(c, StrRef(g).value) && Nestless(g, {})
  }

  /** By a subschema. */
  ghost predicate InnerHit(c: set<DefKey>, n: Json, f: Fields)
    requires n == Obj(f)
    decreases n, 1
  {
    exists k | k in NESTED_KEYS && !(k == AllOf && SingleAllOf(f)) :: UnderHit(c, n, f, k)
  }

  ghost predicate UnderHit(c: set<DefKey>, n: Json, f: Fields, k: Name)
    requires n == Obj(f)
    decreases n, 0
  {
    Has(f, k) &&
    var v := f[Index(f, k)].value;
    if k == Items then Hits(c, v) else VisitsMembers(k, v) && MembersHit(c, v)
  }

  ghost predicate MembersHit(c: set<DefKey>, v: Json)
    decreases v, 2
  {
    exists i | 0 <= i < Size(v) :: Hits(c, Child(v, i))
  }

  /** By the only member of its `allOf`, which takes its place. */
  ghost predicate SoleHit(c: set<DefKey>, n: Json, f: Fields)
    requires n == Obj(f)
    decreases n, 1
  {
    && SingleAllOf(f) && Member(f).Obj? && !Has(f, Ref) && Nestless(f, {AllOf})
    && var x := Member(f).fields;
       SoleRef(c, f, x) || exists k | k in NESTED_KEYS - {AllOf} :: UnderHit(c, Member(f), x, k)
  }

  ghost predicate SoleRef(c: set<DefKey>, f: Fields, x: Fields) {
    && StrRef(x).Some? && Cyclic(c, StrRef(x).value) && Nestless(x, {AllOf})
    && exists q :: Companion(f, x, q)
  }

  /** Something that stands beside the `$ref` once the member has taken the place of the node. */
  predicate Companion(f: Fields, x: Fields, q: Name) {
    q.Text? && (Has(f, q) || Has(x, q))
  }

  /** A definition that stays in the cycle wherever it is inlined. */
  ghost predicate DeepHit(c: set<DefKey>, f: Fields) {
    !Has(f, Ref) && !SingleAllOf(f) && InnerHit(c, Obj(f), f)
  }

  ghost predicate LoopDef(c: set<DefKey>, d: Option<Json>) {
    d.Some? && d.value.Obj? && DeepHit(c, d.value.fields)
  }

  ghost predicate Loops(c: set<DefKey>, root: Json) {
    forall key | key in c :: LoopDef(c, Def(root, key))
  }

  // ---- the cycle survives whatever is written ----------------------------------------------

  ghost predicate Fit(c: set<DefKey>, deep: bool, v: Json) {
    if deep then v.Obj? && DeepHit(c, v.fields) else Hits(c, v)
  }

  /** The definitions of the cycle stay in it as long as what is written at `p` leads into it. */
  ghost predicate Keeps(c: set<DefKey>, root: Json, p: seq<nat>, deep: bool) {
    ValidPath(root, p) && forall v {:trigger PutAt(root, p, v)} | Fit(c, deep, v) :: Loops(c, PutAt(root, p, v))
  }

  predicate SameKind(a: Json, b: Json) {
    a.Obj? == b.Obj? && a.Arr? == b.Arr? && Size(a) == Size(b)
  }

  /** The same for a place that holds a list or a map of subschemas such as `n`. */
  ghost predicate KeepsMembers(c: set<DefKey>, root: Json, p: seq<nat>, n: Json) {
    ValidPath(root, p) &&
    forall v {:trigger PutAt(root, p, v)} | SameKind(v, n) && MembersHit(c, v) :: Loops(c, PutAt(root, p, v))
  }

  lemma ChildKeeps(c: set<DefKey>, root: Json, p: seq<nat>, n: Json, i: nat)
    requires KeepsMembers(c, root, p, n) && i < Size(n)
    ensures Keeps(c, PutAt(root, p, n), p + [i], false)
  {
    PutChild(root, p, n, i, n);
    forall v | Fit(c, false, v) ensures Loops(c, PutAt(PutAt(root, p, n), p + [i], v)) {
      PutChild(root, p, n, i, v);
      var m := SetChild(n, i, v);
      assert Child(m, i) == v;
      assert SameKind(m, n) && MembersHit(c, m);
    }
  }

  /** Replacing what stands under a keyword. */
  function With(f: Fields, k: Name, v: Json): Fields
    requires Has(f, k)
  {
    f[Index(f, k) := Field(k, v)]
  }

  lemma WithFits(c: set<DefKey>, deep: bool, f: Fields, k: Name, v: Json)
    requires Has(f, k) && k in NESTED_KEYS && (deep ==> !Has(f, Ref) && !SingleAllOf(f))
    requires if k == Items then Hits(c, v) else VisitsMembers(k, v) && MembersHit(c, v)
    requires k == AllOf ==> !SingleAllOf(f) && SameKind(v, Value(f, k))
    ensures Fit(c, deep, Obj(With(f, k, v)))
  {
    var g := With(f, k, v);
    SameKeys(f, g, k);
    SameKeys(f, g, Ref);
    SameKeys(f, g, AllOf);
    assert UnderHit(c, Obj(g), g, k);
  }

  lemma FieldKeeps(c: set<DefKey>, root: Json, p: seq<nat>, deep: bool, f: Fields, k: Name)
    requires Keeps(c, root, p, deep) && Has(f, k) && k in NESTED_KEYS && (deep ==> !Has(f, Ref) && !SingleAllOf(f))
    requires k == AllOf ==> !SingleAllOf(f)
    ensures k == Items ==> Keeps(c, PutAt(root, p, Obj(f)), p + [Index(f, k)], false)
    ensures k != Items && VisitsMembers(k, Value(f, k)) ==>
              KeepsMembers(c, PutAt(root, p, Obj(f)), p + [Index(f, k)], Value(f, k))
  {
    var i := Index(f, k);
    PutChild(root, p, Obj(f), i, Null);
    forall v | (if k == Items then Hits(c, v) else VisitsMembers(k, v) && MembersHit(c, v)) &&
               (k == AllOf ==> SameKind(v, Value(f, k)))
      ensures Loops(c, PutAt(PutAt(root, p, Obj(f)), p + [i], v))
    {
      PutChild(root, p, Obj(f), i, v);
      WithFits(c, deep, f, k, v);
      assert SetChild(Obj(f), i, v) == Obj(With(f, k, v));
    }
  }

  // ---- nothing that leads into the cycle is ever finished ----------------------------------

  lemma {:induction false} NodeLoops(c: set<DefKey>, root: Json, p: seq<nat>, n: Json, limit: nat)
    requires Keeps(c, root, p, false) && Hits(c, n)
    ensures NormNode(root, p, n, limit).Err?
    decreases limit, 0, 1
  {
    if limit > 0 {
      if n.Obj? { TopLoops(c, root, p, false, n, limit); } else { ListLoops(c, root, p, n, limit - 1); }
    }
  }

  lemma {:induction false} TopLoops(c: set<DefKey>, root: Json, p: seq<nat>, deep: bool, d: Json, limit: nat)
    requires Keeps(c, root, p, deep) && d.Obj? && Fit(c, deep, d)
    ensures NormNode(root, p, d, limit).Err?
    decreases limit, 0, 0
  {
    NodeOfDict(root, p, d.fields, limit);
    if limit > 0 { DictLoops(c, root, p, deep, d.fields, limit - 1); }
  }

  lemma {:induction false} ListLoops(c: set<DefKey>, root: Json, p: seq<nat>, n: Json, limit: nat)
    requires Keeps(c, root, p, false) && n.Arr? && Hits(c, n)
    ensures NormNode(root, p, n, limit + 1).Err?
    decreases limit, 7
  {
    var j :| 0 <= j < Size(n) && Hits(c, Child(n, j));
    ListKeeps(c, root, p, n);
    MembersLoop(c, root, p, n, 0, j, Child(n, j), limit);
  }

  lemma ListKeeps(c: set<DefKey>, root: Json, p: seq<nat>, n: Json)
    requires Keeps(c, root, p, false) && n.Arr?
    ensures KeepsMembers(c, root, p, n)
  {
    forall v | SameKind(v, n) && MembersHit(c, v) ensures Loops(c, PutAt(root, p, v)) { assert Fit(c, false, v); }
  }

  lemma {:induction false} MembersLoop(
      c: set<DefKey>, root: Json, p: seq<nat>, n: Json, i: nat, j: nat, x: Json, limit: nat)
    requires KeepsMembers(c, root, p, n) && i <= j < Size(n) && Child(n, j) == x && Hits(c, x)
    ensures NormMembers(root, p, n, i, limit).Err?
    decreases limit, 1, j - i + 1
  {
    PutChild(root, p, n, i, Child(n, i));
    var r := NormNode(PutAt(root, p, n), p + [i], Child(n, i), limit);
    if i == j { ChildLoops(c, root, p, n, i, limit); }
    if r.Err? {
      MembersStop(root, p, n, i, limit);
    } else {
      KindKeeps(c, root, p, n, SetChild(n, i, r.value));
      MembersStep(root, p, n, i, limit, r.value);
      MembersLoop(c, root, p, SetChild(n, i, r.value), i + 1, j, x, limit);
    }
  }

  lemma {:induction false} ChildLoops(c: set<DefKey>, root: Json, p: seq<nat>, n: Json, i: nat, limit: nat)
    requires KeepsMembers(c, root, p, n) && i < Size(n) && Hits(c, Child(n, i)) && ValidPath(PutAt(root, p, n), p + [i])
    ensures NormNode(PutAt(root, p, n), p + [i], Child(n, i), limit).Err?
    decreases limit, 1, 0
  {
    ChildKeeps(c, root, p, n, i);
    NodeLoops(c, PutAt(root, p, n), p + [i], Child(n, i), limit);
  }

  lemma KindKeeps(c: set<DefKey>, root: Json, p: seq<nat>, n: Json, m: Json)
    requires KeepsMembers(c, root, p, n) && SameKind(m, n)
    ensures KeepsMembers(c, root, p, m)
  {
    forall v | SameKind(v, m) && MembersHit(c, v) ensures Loops(c, PutAt(root, p, v)) { assert SameKind(v, n); }
  }

  lemma {:induction false} KeyLoops(c: set<DefKey>, root: Json, p: seq<nat>, deep: bool, f: Fields, k: Name, limit: nat)
    requires Keeps(c, root, p, deep) && k in NESTED_KEYS && UnderHit(c, Obj(f), f, k)
    requires (deep ==> !Has(f, Ref) && !SingleAllOf(f)) && (k == AllOf ==> !SingleAllOf(f))
    ensures NormKey(root, p, f, k, limit).Err?
    decreases limit, 2
  {
    var i, v := Index(f, k), Value(f, k);
    FieldKeeps(c, root, p, deep, f, k);
    PutChild(root, p, Obj(f), i, v);
    if k == Items {
      NodeLoops(c, PutAt(root, p, Obj(f)), p + [i], v, limit);
    } else {
      var j :| 0 <= j < Size(v) && Hits(c, Child(v, j));
      MembersLoop(c, PutAt(root, p, Obj(f)), p + [i], v, 0, j, Child(v, j), limit);
    }
  }

  /** A hit depends on what stands under one keyword. */
  lemma UnderSame(c: set<DefKey>, f: Fields, g: Fields, k: Name)
    requires UnderHit(c, Obj(f), f, k) && Get(g, k) == Get(f, k)
    ensures UnderHit(c, Obj(g), g, k)
  {
  }

  lemma {:induction false} DictLoops(c: set<DefKey>, root: Json, p: seq<nat>, deep: bool, f: Fields, limit: nat)
    requires Keeps(c, root, p, deep) && Fit(c, deep, Obj(f))
    ensures NormDict(root, p, f, limit).Err?
    decreases limit, 6
  {
    var g := Drop(f, {Default});
    DropGet(f, {Default}, Ref);
    DropGet(f, {Default}, AllOf);
    if Inlines(g) {
      assert !deep;
      var r := Resolve(PutAt(root, p, Obj(g)), StrRef(g).value);
      if r.Ok? {
        InlinedHits(c, root, p, f, r.value);
        NodeLoops(c, root, p, Obj(Inlined(g, r.value)), limit);
      }
    } else if InnerHit(c, Obj(f), f) {
      var k :| k in NESTED_KEYS && !(k == AllOf && SingleAllOf(f)) && UnderHit(c, Obj(f), f, k);
      DropGet(f, {Default}, k);
      UnderSame(c, f, g, k);
      PlainLoops(c, root, p, deep, g, k, limit);
    } else {
      SoleDropped(c, f);
      SoleLoops(c, root, p, g, limit);
    }
  }

  lemma InlinedHits(c: set<DefKey>, root: Json, p: seq<nat>, f: Fields, target: Fields)
    requires Keeps(c, root, p, false) && Hits(c, Obj(f)) && Inlines(Drop(f, {Default}))
    requires var g := Drop(f, {Default}); Resolve(PutAt(root, p, Obj(g)), StrRef(g).value) == Ok(target)
    ensures Hits(c, Obj(Inlined(Drop(f, {Default}), target)))
  {
    var g := Drop(f, {Default});
    DropGet(f, {Default}, Default);
    DropGet(f, {Default}, Ref);
    if InnerHit(c, Obj(f), f) {
      InlinedInner(c, f, target);
    } else {
      assert OwnHit(c, g);
      CycleTarget(c, root, p, g, target);
      InlinedOwn(c, g, target);
    }
  }

  /** What the node has itself stays. */
  lemma InlinedInner(c: set<DefKey>, f: Fields, target: Fields)
    requires InnerHit(c, Obj(f), f)
    ensures Hits(c, Obj(Inlined(Drop(f, {Default}), target)))
  {
    var g := Drop(f, {Default});
    var m := Inlined(g, target);
    var k :| k in NESTED_KEYS && !(k == AllOf && SingleAllOf(f)) && UnderHit(c, Obj(f), f, k);
    DropGet(f, {Default}, k);
    MergeGet(g, target, k);
    DropGet(Merge(g, target), {Ref}, k);
    UnderSame(c, f, m, k);
    assert k == AllOf ==> !SingleAllOf(m);
  }

  /** What the target has comes in. */
  lemma InlinedOwn(c: set<DefKey>, g: Fields, target: Fields)
    requires Nestless(g, {}) && DeepHit(c, target)
    ensures Hits(c, Obj(Inlined(g, target)))
  {
    var m := Inlined(g, target);
    var k :| k in NESTED_KEYS && !(k == AllOf && SingleAllOf(target)) && UnderHit(c, Obj(target), target, k);
    MergeGet(g, target, k);
    DropGet(Merge(g, target), {Ref}, k);
    UnderSame(c, target, m, k);
    assert k == AllOf ==> !SingleAllOf(m);
  }

  lemma CycleTarget(c: set<DefKey>, root: Json, p: seq<nat>, g: Fields, target: Fields)
    requires Keeps(c, root, p, false) && OwnHit(c, g) && !Has(g, Default)
    requires Resolve(PutAt(root, p, Obj(g)), StrRef(g).value) == Ok(target)
    ensures DeepHit(c, target)
  {
    IndexFirst(g, Default);
    DropNothing(g, {Default});
    var doc := PutAt(root, p, Obj(g));
    assert Fit(c, false, Obj(g)) && Loops(c, doc);
    assert LoopDef(c, Def(doc, Names2(StrRef(g).value).value));
    ResolveDef(doc, StrRef(g).value);
  }

  // ---- a dictionary with a subschema that leads into the cycle -----------------------------

  ghost predicate Primed(c: set<DefKey>, deep: bool, f: Fields, k: Name) {
    && k in NESTED_KEYS && UnderHit(c, Obj(f), f, k) && !(k == AllOf && SingleAllOf(f))
    && (deep ==> !Has(f, Ref) && !SingleAllOf(f))
  }

  lemma PrimedSame(c: set<DefKey>, deep: bool, f: Fields, g: Fields, k: Name)
    requires Primed(c, deep, f, k) && Get(g, k) == Get(f, k) && Get(g, Ref) == Get(f, Ref) &&
             Get(g, AllOf) == Get(f, AllOf)
    ensures Primed(c, deep, g, k)
  {
    UnderSame(c, f, g, k);
  }

  /** Visiting one keyword fails, or leaves the subschema to come as it is. */
  lemma {:induction false} KeyPrimed(
      c: set<DefKey>, root: Json, p: seq<nat>, deep: bool, f: Fields, k: Name, q: Name, limit: nat)
    requires Keeps(c, root, p, deep) && Primed(c, deep, f, k) && q in SUBSCHEMA_KEYS - {AllOf}
    ensures NormKey(root, p, f, q, limit).Ok? ==> q != k && Primed(c, deep, NormKey(root, p, f, q, limit).value, k)
    decreases limit, 3
  {
    if q == k {
      KeyLoops(c, root, p, deep, f, k, limit);
    } else if NormKey(root, p, f, q, limit).Ok? {
      KeyFrameGet(root, p, f, q, limit, k);
      KeyFrameGet(root, p, f, q, limit, Ref);
      KeyFrameGet(root, p, f, q, limit, AllOf);
      PrimedSame(c, deep, f, NormKey(root, p, f, q, limit).value, k);
    }
  }

  lemma {:induction false} FirstPrimed(
      c: set<DefKey>, root: Json, p: seq<nat>, deep: bool, f: Fields, k: Name, limit: nat)
    requires Keeps(c, root, p, deep) && Primed(c, deep, f, k)
    ensures var r := NormFirst(root, p, f, limit); r.Ok? ==> k !in {Properties, Items} && Primed(c, deep, r.value, k)
    decreases limit, 4
  {
    KeyPrimed(c, root, p, deep, f, k, Properties, limit);
    var f1 := NormKey(root, p, f, Properties, limit);
    if f1.Ok? {
      KeyPrimed(c, root, p, deep, f1.value, k, Items, limit);
      var f2 := NormKey(root, p, f1.value, Items, limit);
      if f2.Ok? {
        KeyPrimed(c, root, p, deep, f2.value, k, Defs, limit);
        var f3 := NormKey(root, p, f2.value, Defs, limit);
        if f3.Ok? { KeyPrimed(c, root, p, deep, f3.value, k, Definitions, limit); }
      }
    }
  }

  lemma {:induction false} TailPrimed(
      c: set<DefKey>, root: Json, p: seq<nat>, deep: bool, h: Fields, k: Name, limit: nat)
    requires Keeps(c, root, p, deep) && Primed(c, deep, h, k) && k !in {Properties, Items}
    ensures NormTail(root, p, h, limit).Err?
    decreases limit, 4
  {
    if SingleAllOf(h) {
      if Member(h).Obj? {
        CollapsedKeeps(c, h, Member(h).fields, k);
        NodeLoops(c, root, p, Obj(Collapsed(h, Member(h).fields)), limit);
      }
    } else {
      KeyPrimed(c, root, p, deep, h, k, AnyOf, limit);
      var f1 := NormKey(root, p, h, AnyOf, limit);
      if f1.Ok? {
        KeyPrimed(c, root, p, deep, f1.value, k, OneOf, limit);
        var f2 := NormKey(root, p, f1.value, OneOf, limit);
        if f2.Ok? { KeyLoops(c, root, p, deep, f2.value, AllOf, limit); }
      }
    }
  }

  lemma CollapsedKeeps(c: set<DefKey>, h: Fields, x: Fields, k: Name)
    requires k in NESTED_KEYS - {AllOf} && UnderHit(c, Obj(h), h, k)
    ensures Hits(c, Obj(Collapsed(h, x)))
  {
    MergeGet(h, x, k);
    DropGet(Merge(h, x), {AllOf}, k);
    UnderSame(c, h, Collapsed(h, x), k);
  }

  lemma {:induction false} PlainLoops(
      c: set<DefKey>, root: Json, p: seq<nat>, deep: bool, g: Fields, k: Name, limit: nat)
    requires Keeps(c, root, p, deep) && Primed(c, deep, g, k)
    ensures NormPlain(root, p, g, limit).Err?
    decreases limit, 5
  {
    ShapedGet(g, k);
    ShapedGet(g, Ref);
    ShapedGet(g, AllOf);
    PrimedSame(c, deep, g, Shaped(g), k);
    FirstPrimed(c, root, p, deep, Shaped(g), k, limit);
    var h := NormFirst(root, p, Shaped(g), limit);
    if h.Ok? { TailPrimed(c, root, p, deep, h.value, k, limit); }
  }

  // ---- a dictionary with the only member of an `allOf` that does ---------------------------

  /** What matters to the only member beside it. */
  ghost predicate SameBeside(f: Fields, g: Fields) {
    Get(g, AllOf) == Get(f, AllOf) && forall q | q in NESTED_KEYS + {Ref} || q.Text? :: Has(g, q) == Has(f, q)
  }

  lemma SoleSame(c: set<DefKey>, f: Fields, g: Fields)
    requires SoleHit(c, Obj(f), f) && SameBeside(f, g)
    ensures SoleHit(c, Obj(g), g)
  {
    var x := Member(f).fields;
    assert Member(g) == Member(f);
    if SoleRef(c, f, x) {
      var q :| Companion(f, x, q);
      assert Companion(g, x, q);
    }
  }

  lemma SoleDropped(c: set<DefKey>, f: Fields)
    requires SoleHit(c, Obj(f), f)
    ensures SoleHit(c, Obj(Drop(f, {Default})), Drop(f, {Default}))
  {
    DropGet(f, {Default}, AllOf);
    forall q | q in NESTED_KEYS + {Ref} || q.Text? ensures Has(Drop(f, {Default}), q) == Has(f, q) {
      DropGet(f, {Default}, q);
    }
    SoleSame(c, f, Drop(f, {Default}));
  }

  lemma SoleShaped(c: set<DefKey>, g: Fields)
    requires SoleHit(c, Obj(g), g)
    ensures SoleHit(c, Obj(Shaped(g)), Shaped(g))
  {
    ShapedGet(g, AllOf);
    forall q | q in NESTED_KEYS + {Ref} || q.Text? ensures Has(Shaped(g), q) == Has(g, q) { ShapedGet(g, q); }
    SoleSame(c, g, Shaped(g));
  }

  lemma FirstFrame(root: Json, p: seq<nat>, f: Fields, limit: nat, q: Name)
    requires ValidPath(root, p) && NormFirst(root, p, f, limit).Ok?
    ensures var h := NormFirst(root, p, f, limit).value;
            Has(h, q) == Has(f, q) && (q !in FIRST_KEYS ==> Get(h, q) == Get(f, q))
  {
    var f1 := NormKey(root, p, f, Properties, limit).value;
    var f2 := NormKey(root, p, f1, Items, limit).value;
    var f3 := NormKey(root, p, f2, Defs, limit).value;
    var h := NormKey(root, p, f3, Definitions, limit).value;
    KeyFrame(root, p, f, Properties, limit);
    KeyFrame(root, p, f1, Items, limit);
    KeyFrame(root, p, f2, Defs, limit);
    KeyFrame(root, p, f3, Definitions, limit);
    KeyFrameGet(root, p, f, Properties, limit, q);
    KeyFrameGet(root, p, f1, Items, limit, q);
    KeyFrameGet(root, p, f2, Defs, limit, q);
    KeyFrameGet(root, p, f3, Definitions, limit, q);
  }

  lemma SoleFirst(c: set<DefKey>, root: Json, p: seq<nat>, s: Fields, limit: nat)
    requires ValidPath(root, p) && SoleHit(c, Obj(s), s) && NormFirst(root, p, s, limit).Ok?
    ensures var h := NormFirst(root, p, s, limit).value; SoleHit(c, Obj(h), h)
  {
    var h := NormFirst(root, p, s, limit).value;
    FirstFrame(root, p, s, limit, AllOf);
    forall q | q in NESTED_KEYS + {Ref} || q.Text? ensures Has(h, q) == Has(s, q) {
      FirstFrame(root, p, s, limit, q);
    }
    SoleSame(c, s, h);
  }

  lemma {:induction false} SoleLoops(c: set<DefKey>, root: Json, p: seq<nat>, g: Fields, limit: nat)
    requires Keeps(c, root, p, false) && SoleHit(c, Obj(g), g)
    ensures NormPlain(root, p, g, limit).Err?
    decreases limit, 5
  {
    SoleShaped(c, g);
    var r := NormFirst(root, p, Shaped(g), limit);
    if r.Ok? {
      var h := r.value;
      SoleFirst(c, root, p, Shaped(g), limit);
      CollapsedHits(c, h);
      NodeLoops(c, root, p, Obj(Collapsed(h, Member(h).fields)), limit);
    }
  }

  lemma CollapsedHits(c: set<DefKey>, h: Fields)
    requires SoleHit(c, Obj(h), h)
    ensures Hits(c, Obj(Collapsed(h, Member(h).fields)))
  {
    var x := Member(h).fields;
    if SoleRef(c, h, x) {
      CollapsedOwn(c, h, x);
    } else {
      var k :| k in NESTED_KEYS - {AllOf} && UnderHit(c, Member(h), x, k);
      MergeGet(h, x, k);
      DropGet(Merge(h, x), {AllOf}, k);
      UnderSame(c, x, Collapsed(h, x), k);
    }
  }

  lemma CollapsedOwn(c: set<DefKey>, h: Fields, x: Fields)
    requires SoleRef(c, h, x) && !Has(h, Ref) && Nestless(h, {AllOf})
    ensures OwnHit(c, Drop(Collapsed(h, x), {Default}))
  {
    var m := Drop(Collapsed(h, x), {Default});
    var q :| Companion(h, x, q);
    CollapsedGet(h, x, Ref);
    CollapsedGet(h, x, q);
    TwoKeys(m, Ref, q);
    forall k | k in NESTED_KEYS ensures !Has(m, k) { CollapsedGet(h, x, k); }
  }

  lemma CollapsedGet(h: Fields, x: Fields, q: Name)
    ensures Get(Drop(Collapsed(h, x), {Default}), q) ==
            if q in {AllOf, Default} then None else if Has(h, q) then Get(h, q) else Get(x, q)
  {
    MergeGet(h, x, q);
    DropGet(Merge(h, x), {AllOf}, q);
    DropGet(Collapsed(h, x), {Default}, q);
  }

  lemma TwoKeys(f: Fields, a: Name, b: Name)
    requires Has(f, a) && Has(f, b) && a != b
    ensures |f| > 1
  {
    assert f[Index(f, a)].key == a && f[Index(f, b)].key == b;
  }

  // ---- the document ------------------------------------------------------------------------

  /** The definition of the cycle that stands at place `j` of a section. */
  predicate InCycle(c: set<DefKey>, sec: Name, n: Json, j: nat) {
    n.Obj? && exists key | key in c :: key.0 == sec && Index(n.fields, key.1) == j < Size(n)
  }

  lemma SectionKeeps(c: set<DefKey>, f: Fields, sec: Name, j: nat)
    requires Loops(c, Obj(f)) && Has(f, sec) && j < Size(Value(f, sec)) && ValidPath(Obj(f), [Index(f, sec)] + [j])
    requires forall v :: PutAt(Obj(f), [Index(f, sec)] + [j], v) == Obj(With(f, sec, SetChild(Value(f, sec), j, v)))
    ensures Keeps(c, Obj(f), [Index(f, sec)] + [j], true)
  {
    var i := Index(f, sec);
    forall v | Fit(c, true, v) ensures Loops(c, PutAt(Obj(f), [i] + [j], v)) {
      forall key | key in c ensures LoopDef(c, Def(Obj(With(f, sec, SetChild(Value(f, sec), j, v))), key)) {
        DefAfter(f, sec, j, v, key);
      }
    }
  }

  /** Rewriting a definition outside the cycle leaves the cycle alone. */
  lemma OthersKeep(c: set<DefKey>, f: Fields, sec: Name, j: nat, v: Json)
    requires Loops(c, Obj(f)) && Has(f, sec) && j < Size(Value(f, sec)) && !InCycle(c, sec, Value(f, sec), j)
    ensures Loops(c, Obj(With(f, sec, SetChild(Value(f, sec), j, v))))
  {
    forall key | key in c ensures LoopDef(c, Def(Obj(With(f, sec, SetChild(Value(f, sec), j, v))), key)) {
      DefAfter(f, sec, j, v, key);
    }
  }

  lemma MemberPath(f: Fields, sec: Name, j: nat)
    requires Has(f, sec) && j < Size(Value(f, sec))
    ensures ValidPath(Obj(f), [Index(f, sec)] + [j])
    ensures forall v :: PutAt(Obj(f), [Index(f, sec)] + [j], v) == Obj(With(f, sec, SetChild(Value(f, sec), j, v)))
  {
    var i, c := Index(f, sec), Value(f, sec);
    PutChild(Obj(f), [], Obj(f), i, c);
    assert [] + [i] == [i] && SetChild(Obj(f), i, c) == Obj(f);
    forall v
      ensures ValidPath(Obj(f), [i] + [j]) && PutAt(Obj(f), [i] + [j], v) == Obj(With(f, sec, SetChild(c, j, v)))
    {
      PutChild(Obj(f), [i], c, j, v);
      PutChild(Obj(f), [], Obj(f), i, SetChild(c, j, v));
    }
  }

  /** The definition of the cycle at place `j` is never finished. */
  lemma DefLoops(c: set<DefKey>, f: Fields, sec: Name, j: nat, limit: nat)
    requires Loops(c, Obj(f)) && Has(f, sec) && j < Size(Value(f, sec)) && InCycle(c, sec, Value(f, sec), j)
    ensures ValidPath(Obj(f), [Index(f, sec)] + [j])
    ensures NormNode(Obj(f), [Index(f, sec)] + [j], Child(Value(f, sec), j), limit).Err?
  {
    MemberPath(f, sec, j);
    SectionKeeps(c, f, sec, j);
    CycleMember(c, f, sec, j);
    TopLoops(c, Obj(f), [Index(f, sec)] + [j], true, Child(Value(f, sec), j), limit);
  }

  lemma CycleMember(c: set<DefKey>, f: Fields, sec: Name, j: nat)
    requires Loops(c, Obj(f)) && Has(f, sec) && j < Size(Value(f, sec)) && InCycle(c, sec, Value(f, sec), j)
    ensures Fit(c, true, Child(Value(f, sec), j))
  {
    var key :| key in c && key.0 == sec && Index(Value(f, sec).fields, key.1) == j;
    assert Def(Obj(f), key) == Some(Child(Value(f, sec), j)) && LoopDef(c, Def(Obj(f), key));
  }

  lemma SectionPlace(f: Fields, sec: Name, n: Json)
    requires Has(f, sec)
    ensures var i, g := Index(f, sec), With(f, sec, n);
            && ValidPath(Obj(f), [i]) && PutAt(Obj(f), [i], n) == Obj(g)
            && Has(g, sec) && Index(g, sec) == i && Value(g, sec) == n
  {
    var i := Index(f, sec);
    PutChild(Obj(f), [], Obj(f), i, n);
    assert [] + [i] == [i];
    SameKeys(f, With(f, sec, n), sec);
  }

  lemma {:induction false} SectionLoops(c: set<DefKey>, f: Fields, sec: Name, n: Json, i: nat, j: nat, limit: nat)
    requires Has(f, sec) && Loops(c, Obj(With(f, sec, n))) && i <= j < Size(n) && InCycle(c, sec, n, j)
    ensures ValidPath(Obj(f), [Index(f, sec)]) && NormMembers(Obj(f), [Index(f, sec)], n, i, limit).Err?
    decreases j - i
  {
    var ix, g := Index(f, sec), With(f, sec, n);
    SectionPlace(f, sec, n);
    MemberPath(g, sec, i);
    var r := NormNode(Obj(g), [ix] + [i], Child(n, i), limit);
    if r.Err? {
      MembersStop(Obj(f), [ix], n, i, limit);
    } else {
      if InCycle(c, sec, n, i) { DefLoops(c, g, sec, i, limit); }
      NextDefinition(c, f, sec, n, i, r.value);
      StillInCycle(c, sec, n, i, r.value, j);
      SectionLoops(c, f, sec, SetChild(n, i, r.value), i + 1, j, limit);
      MembersStep(Obj(f), [ix], n, i, limit, r.value);
    }
  }

  lemma NextDefinition(c: set<DefKey>, f: Fields, sec: Name, n: Json, i: nat, v: Json)
    requires Has(f, sec) && Loops(c, Obj(With(f, sec, n))) && i < Size(n) && !InCycle(c, sec, n, i)
    ensures Loops(c, Obj(With(f, sec, SetChild(n, i, v))))
  {
    var g := With(f, sec, n);
    SectionPlace(f, sec, n);
    OthersKeep(c, g, sec, i, v);
    assert With(g, sec, SetChild(n, i, v)) == With(f, sec, SetChild(n, i, v));
  }

  lemma StillInCycle(c: set<DefKey>, sec: Name, n: Json, i: nat, v: Json, j: nat)
    requires InCycle(c, sec, n, j) && i < Size(n)
    ensures InCycle(c, sec, SetChild(n, i, v), j)
  {
    var key :| key in c && key.0 == sec && Index(n.fields, key.1) == j;
    SameKeys(n.fields, SetChild(n, i, v).fields, key.1);
  }

  lemma SectionKeyLoops(c: set<DefKey>, root: Json, f: Fields, key: DefKey, limit: nat)
    requires Loops(c, Obj(f)) && key in c && key.0 in {Defs, Definitions}
    ensures NormKey(root, [], f, key.0, limit).Err?
  {
    assert LoopDef(c, Def(Obj(f), key));
    var sec := key.0;
    var n := Value(f, sec);
    var j := Index(n.fields, key.1);
    assert With(f, sec, n) == f && [] + [Index(f, sec)] == [Index(f, sec)];
    SectionLoops(c, f, sec, n, 0, j, limit);
  }

  lemma LoopsKept(c: set<DefKey>, f: Fields, g: Fields)
    requires Loops(c, Obj(f))
    requires forall key | key in c :: Get(g, key.0) == Get(f, key.0)
    ensures Loops(c, Obj(g))
  {
    forall key | key in c ensures LoopDef(c, Def(Obj(g), key)) { DefOfFields(f, g, key); }
  }

  /** Visiting another keyword fails, or leaves the definitions of the cycle alone. */
  lemma OtherKeyKeeps(c: set<DefKey>, root: Json, f: Fields, k: Name, limit: nat)
    requires Loops(c, Obj(f)) && forall key | key in c :: key.0 != k
    ensures NormKey(root, [], f, k, limit).Ok? ==> Loops(c, Obj(NormKey(root, [], f, k, limit).value))
  {
    var r := NormKey(root, [], f, k, limit);
    if r.Ok? {
      forall key | key in c ensures Get(r.value, key.0) == Get(f, key.0) { KeyFrameGet(root, [], f, k, limit, key.0); }
      LoopsKept(c, f, r.value);
    }
  }

  lemma RootFirstLoops(c: set<DefKey>, root: Json, s: Fields, key: DefKey, limit: nat)
    requires Loops(c, Obj(s)) && key in c && forall q | q in c :: q.0 in {Defs, Definitions}
    ensures NormFirst(root, [], s, limit).Err?
  {
    OtherKeyKeeps(c, root, s, Properties, limit);
    var f1 := NormKey(root, [], s, Properties, limit);
    if f1.Ok? {
      OtherKeyKeeps(c, root, f1.value, Items, limit);
      var f2 := NormKey(root, [], f1.value, Items, limit);
      if f2.Ok? {
        if q :| q in c && q.0 == Defs {
          SectionKeyLoops(c, root, f2.value, q, limit);
        } else {
          OtherKeyKeeps(c, root, f2.value, Defs, limit);
          var f3 := NormKey(root, [], f2.value, Defs, limit);
          if f3.Ok? { SectionKeyLoops(c, root, f3.value, key, limit); }
        }
      }
    }
  }

  lemma {:induction false} RootLoops(c: set<DefKey>, root: Json, f: Fields, key: DefKey, limit: nat)
    requires Loops(c, Obj(f)) && key in c && forall q | q in c :: q.0 in {Defs, Definitions}
    ensures NormDict(root, [], f, limit).Err?
    decreases limit, 1
  {
    var g := Drop(f, {Default});
    RootDropped(c, f);
    if Inlines(g) {
      var r := Resolve(PutAt(root, [], Obj(g)), StrRef(g).value);
      if r.Ok? {
        RootMerged(c, g, r.value);
        RootNodeLoops(c, root, Inlined(g, r.value), key, limit);
      }
    } else {
      RootShaped(c, g);
      RootFirstLoops(c, root, Shaped(g), key, limit);
    }
  }

  lemma {:induction false} RootNodeLoops(c: set<DefKey>, root: Json, m: Fields, key: DefKey, limit: nat)
    requires Loops(c, Obj(m)) && key in c && forall q | q in c :: q.0 in {Defs, Definitions}
    ensures NormNode(root, [], Obj(m), limit).Err?
    decreases limit, 0
  {
    NodeOfDict(root, [], m, limit);
    if limit > 0 { RootLoops(c, root, m, key, limit - 1); }
  }

  lemma RootDropped(c: set<DefKey>, f: Fields)
    requires Loops(c, Obj(f)) && forall q | q in c :: q.0 in {Defs, Definitions}
    ensures Loops(c, Obj(Drop(f, {Default})))
  {
    forall q | q in c ensures Get(Drop(f, {Default}), q.0) == Get(f, q.0) { DropGet(f, {Default}, q.0); }
    LoopsKept(c, f, Drop(f, {Default}));
  }

  lemma RootShaped(c: set<DefKey>, g: Fields)
    requires Loops(c, Obj(g)) && forall q | q in c :: q.0 in {Defs, Definitions}
    ensures Loops(c, Obj(Shaped(g)))
  {
    forall q | q in c ensures Get(Shaped(g), q.0) == Get(g, q.0) { ShapedGet(g, q.0); }
    LoopsKept(c, g, Shaped(g));
  }

  lemma RootMerged(c: set<DefKey>, g: Fields, target: Fields)
    requires Loops(c, Obj(g)) && forall q | q in c :: q.0 in {Defs, Definitions}
    ensures Loops(c, Obj(Inlined(g, target)))
  {
    forall q | q in c ensures Get(Inlined(g, target), q.0) == Get(g, q.0) {
      assert LoopDef(c, Def(Obj(g), q));
      MergeGet(g, target, q.0);
      DropGet(Merge(g, target), {Ref}, q.0);
    }
    LoopsKept(c, g, Inlined(g, target));
  }

  /**
   A cycle of definitions, each of which holds below its top a `$ref` with siblings that leads back into the cycle,
   keeps the rewriter from ever returning a schema, whatever else the document holds.
   */
  lemma CycleNeverFinished(c: set<DefKey>, schema: Fields, limit: nat)
    requires c != {} && forall key | key in c :: key.0 in {Defs, Definitions} && LoopDef(c, Def(Obj(schema), key))
    ensures Normalize(Obj(schema), limit).Err?
  {
    var key :| key in c;
    RootNodeLoops(c, Obj(schema), schema, key, limit);
  }
}
