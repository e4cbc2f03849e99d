/**
 A pure normaliser: it never looks at the document under construction. Subschemas are rewritten
 first, each `$ref` that is inlined brings in the finished form of its definition from a table.
 */
module PureNormalizer {
  import opened Options
  import opened Json
  import opened SchemaNormalizer
  import opened SchemaDefinitions
  import opened SchemaNormalForm

  /** Finished definitions, and which of them a `$ref` with siblings may name. */
  datatype Table = Table(of: map<DefKey, Fields>, targets: set<DefKey>)

  function Finished(t: Table, ref: string): Fields {
    var key := Names2(ref);
    if key.Some? && key.value in t.of then t.of[key.value] else []
  }

  /** What becomes of a dictionary whose subschemas are finished and whose `default` is gone. */
  function Top(t: Table, v: Fields): Fields {
    if Inlines(v) then Merge(Drop(v, {Ref}), Finished(t, StrRef(v).value))
    else if SingleAllOf(v) && Member(v).Obj? then
      var a, y := Drop(v, {AllOf}), Member(v).fields;
      if StrRef(y).Some? && a != [] then Merge(a, Finished(t, StrRef(y).value)) else Merge(a, y)
    else Shaped(v)
  }

  function Pure(t: Table, n: Json): Json
    decreases n, 1
  {
    match n
    case Obj(f) => Obj(Top(t, Drop(PureFields(t, f), {Default})))
    case Arr(xs) => Arr(PureItems(t, xs))
    case _ => n
  }

  function PureFields(t: Table, f: Fields): (r: Fields)
    ensures |r| == |f|
    ensures forall i | 0 <= i < |f| :: r[i] == PureField(t, f[i])
    decreases f, 0
  {
    seq(|f|, i requires 0 <= i < |f| => PureField(t, f[i]))
  }

  function PureField(t: Table, x: Field): (r: Field)
    ensures r.key == x.key
    decreases x, 0
  {
    match x.key
    case Items => Field(Items, Pure(t, x.value))
    case Properties => if x.value.Obj? then Field(Properties, PureMembers(t, x.value)) else x
    case Defs | Definitions | AnyOf | OneOf | AllOf => Field(x.key, PureMembers(t, x.value))
    case _ => x
  }

  function PureMembers(t: Table, c: Json): Json
    decreases c, 0
  {
    match c
    case Obj(f) => Obj(PureValues(t, f))
    case Arr(xs) => Arr(PureItems(t, xs))
    case _ => c
  }

  function PureValues(t: Table, f: Fields): (r: Fields)
    ensures |r| == |f|
    ensures forall i | 0 <= i < |f| :: r[i] == PureValue(t, f[i])
    decreases f, 0
  {
    seq(|f|, i requires 0 <= i < |f| => PureValue(t, f[i]))
  }

  function PureValue(t: Table, x: Field): Field
    decreases x, 0
  {
    Field(x.key, Pure(t, x.value))
  }

  function PureItems(t: Table, xs: seq<Json>): (r: seq<Json>)
    ensures |r| == |xs|
    ensures forall i | 0 <= i < |xs| :: r[i] == Pure(t, xs[i])
    decreases xs, 0
  {
    seq(|xs|, i requires 0 <= i < |xs| => Pure(t, xs[i]))
  }

  lemma PureMembersChild(t: Table, c: Json, i: nat)
    requires i < Size(c)
    ensures SameShape(PureMembers(t, c), c)
    ensures Child(PureMembers(t, c), i) == Pure(t, Child(c, i))
  {
    if c.Obj? {
      assert PureValues(t, c.fields)[i] == PureValue(t, c.fields[i]);
    }
  }

  /** A container is determined by its shape and its members. */
  lemma MembersDetermine(t: Table, c: Json, d: Json)
    requires (c.Arr? || c.Obj?) && SameShape(d, c)
    requires forall i | 0 <= i < Size(c) :: Child(d, i) == Pure(t, Child(c, i))
    ensures d == PureMembers(t, c)
  {
    if c.Arr? {
      forall i | 0 <= i < |c.items| ensures d.items[i] == PureItems(t, c.items)[i] {
        assert Child(d, i) == Pure(t, Child(c, i));
      }
      assert d.items == PureItems(t, c.items);
    } else {
      forall i | 0 <= i < |c.fields| ensures d.fields[i] == PureValues(t, c.fields)[i] {
        assert Child(d, i) == Pure(t, Child(c, i));
      }
      assert d.fields == PureValues(t, c.fields);
    }
  }

  // ---- the domain on which the in-place rewriter agrees ------------------------------------

  /** Names a node may have beside an inlined `$ref` or a collapsed `allOf`. */
  predicate Inert(k: Name) {
    k.Text? || k == Defs || k == Definitions
  }

  predicate InertBeside(f: Fields, k: Name) {
    forall i | 0 <= i < |f| :: f[i].key == k || Inert(f[i].key)
  }

  /** A `$ref` that may be inlined: it names a target, whose finished form has no `$ref` of its own. */
  predicate Inlinable(t: Table, ref: string) {
    && Names2(ref).Some? && Names2(ref).value in t.of && Names2(ref).value in t.targets
    && !Has(t.of[Names2(ref).value], Ref)
  }

  /** The dictionary `g`, without its `default`, can be merged in any order. */
  predicate TopDomain(t: Table, g: Fields) {
    if Inlines(g) then InertBeside(g, Ref) && Inlinable(t, StrRef(g).value)
    else SingleAllOf(g) ==>
      && InertBeside(g, AllOf)
      && Member(g).Obj?
      && !Has(Member(g).fields, AllOf)
      && (|g| > 1 && StrRef(Member(g).fields).Some? ==> Inlinable(t, StrRef(Member(g).fields).value))
  }

  predicate Domain(t: Table, n: Json)
    decreases n, 1
  {
    match n
    case Obj(f) => TopDomain(t, Drop(f, {Default})) && FieldsDomain(t, f)
    case Arr(xs) => forall i | 0 <= i < |xs| :: Domain(t, xs[i])
    case _ => true
  }

  predicate FieldsDomain(t: Table, f: Fields)
    decreases f, 0
  {
    forall i | 0 <= i < |f| :: FieldDomain(t, f[i])
  }

  predicate FieldDomain(t: Table, x: Field)
    decreases x, 0
  {
    match x.key
    case Items => Domain(t, x.value)
    case Properties => x.value.Obj? ==> MembersDomain(t, x.value)
    case Defs | Definitions | AnyOf | OneOf | AllOf => MembersDomain(t, x.value)
    case _ => true
  }

  predicate MembersDomain(t: Table, c: Json)
    decreases c, 0
  {
    match c
    case Obj(f) => forall i | 0 <= i < |f| :: ValueDomain(t, f[i])
    case Arr(xs) => forall i | 0 <= i < |xs| :: Domain(t, xs[i])
    case _ => true
  }

  predicate ValueDomain(t: Table, x: Field)
    decreases x, 0
  {
    Domain(t, x.value)
  }

  // ---- merging -----------------------------------------------------------------------------

  lemma KeySetAppend(f: Fields, g: Fields)
    ensures KeySet(f + g) == KeySet(f) + KeySet(g)
  {
    forall k ensures k in KeySet(f + g) <==> k in KeySet(f) + KeySet(g) {
      HasIff(f, k);
      HasIff(g, k);
      HasIff(f + g, k);
      IndexAppend(f, g, k);
    }
  }

  lemma KeySetDrop(f: Fields, ks: set<Name>)
    ensures KeySet(Drop(f, ks)) == KeySet(f) - ks
  {
    forall k ensures k in KeySet(Drop(f, ks)) <==> k in KeySet(f) - ks {
      HasIff(f, k);
      HasIff(Drop(f, ks), k);
      DropGet(f, ks, k);
    }
  }

  lemma MergeAssoc(a: Fields, b: Fields, c: Fields)
    ensures Merge(Merge(a, b), c) == Merge(a, Merge(b, c))
  {
    var A, B := KeySet(a), KeySet(b);
    KeySetDrop(b, A);
    KeySetAppend(a, Drop(b, A));
    assert A + (B - A) == B + A;
    DropDrop(c, B, A);
    DropAppend(b, Drop(c, B), A);
  }

  lemma MergeEmpty(a: Fields)
    ensures Merge([], a) == a && Merge(a, []) == a
  {
    DropNothing(a, KeySet([]));
  }

  /** Dropping names that `a` lacks acts on the other list. */
  lemma DropMerge(a: Fields, e: Fields, ks: set<Name>)
    requires forall i | 0 <= i < |a| :: a[i].key !in ks
    ensures Drop(Merge(a, e), ks) == Merge(a, Drop(e, ks))
  {
    DropAppend(a, Drop(e, KeySet(a)), ks);
    DropNothing(a, ks);
    DropDrop(e, KeySet(a), ks);
    DropDrop(e, ks, KeySet(a));
    assert KeySet(a) + ks == ks + KeySet(a);
  }

  predicate AllInert(a: Fields) {
    forall i | 0 <= i < |a| :: Inert(a[i].key)
  }

  /** Inert fields change neither the defaults nor `required`. */
  lemma ShapedMerge(a: Fields, e: Fields)
    requires AllInert(a)
    ensures Shaped(Merge(a, e)) == Merge(a, Shaped(e))
  {
    var m := Merge(a, e);
    InertGet(a, e, Type);
    InertGet(a, e, Properties);
    InertGet(a, e, AdditionalProperties);
    if ObjectLike(e) && !Has(e, AdditionalProperties) {
      InertAppend(a, e, Field(AdditionalProperties, Bool(false)));
    }
    var d := SetDefaults(e);
    assert SetDefaults(m) == Merge(a, d);
    InertGet(a, d, Properties);
    if Has(d, Properties) && Value(d, Properties).Obj? {
      InertPut(a, d, Required, Arr(Names(Value(d, Properties).fields)));
    }
  }

  lemma InertGet(a: Fields, e: Fields, k: Name)
    requires AllInert(a) && !Inert(k)
    ensures Get(Merge(a, e), k) == Get(e, k)
  {
    MergeGet(a, e, k);
  }

  lemma InertAppend(a: Fields, e: Fields, x: Field)
    requires AllInert(a) && !Inert(x.key)
    ensures Merge(a, e + [x]) == Merge(a, e) + [x]
  {
    HasIff(a, x.key);
    DropAppend(e, [x], KeySet(a));
    assert Drop([x], KeySet(a)) == [x] + Drop([], KeySet(a));
  }

  lemma InertPut(a: Fields, e: Fields, k: Name, v: Json)
    requires AllInert(a) && !Inert(k)
    ensures Put(Merge(a, e), k, v) == Merge(a, Put(e, k, v))
  {
    InertGet(a, e, k);
    if Has(e, k) {
      var i := Index(e, k);
      var b, y, c := e[..i], e[i], e[i + 1..];
      assert e == b + ([y] + c);
      IndexFirst(e, k);
      InertPutAt(a, b, y, c, v);
    } else {
      InertAppend(a, e, Field(k, v));
    }
  }

  lemma InertPutAt(a: Fields, b: Fields, y: Field, c: Fields, v: Json)
    requires AllInert(a) && !Inert(y.key) && !Has(b, y.key)
    ensures Put(Merge(a, b + ([y] + c)), y.key, v) == Merge(a, Put(b + ([y] + c), y.key, v))
  {
    var A, k := KeySet(a), y.key;
    HasIff(a, k);
    SplitDrop(b, y, c, A);
    SplitDrop(b, Field(k, v), c, A);
    DropGet(b, A, k);
    IndexAppend(a, Drop(b, A), k);
    PutSplit(b, y, c, v);
    PutSplit(a + Drop(b, A), y, Drop(c, A), v);
    Assoc3(a, Drop(b, A), [y] + Drop(c, A));
    Assoc3(a, Drop(b, A), [Field(k, v)] + Drop(c, A));
  }

  lemma Assoc3(a: Fields, b: Fields, c: Fields)
    ensures a + (b + c) == a + b + c
  {
  }

  lemma PutSplit(l: Fields, y: Field, r: Fields, v: Json)
    requires !Has(l, y.key)
    ensures Put(l + ([y] + r), y.key, v) == l + ([Field(y.key, v)] + r)
  {
    IndexAppend(l, [y] + r, y.key);
    ConsGet(y, r, y.key);
    IndexAppend([y], r, y.key);
  }

  lemma SplitDrop(b: Fields, x: Field, c: Fields, ks: set<Name>)
    requires x.key !in ks
    ensures Drop(b + ([x] + c), ks) == Drop(b, ks) + ([x] + Drop(c, ks))
  {
    DropAppend(b, [x] + c, ks);
    DropAppend([x], c, ks);
    assert Drop([x], ks) == [x] + Drop([], ks);
  }

  // ---- the pure normaliser under merging ---------------------------------------------------

  lemma PureCons(t: Table, x: Field, f: Fields)
    ensures PureFields(t, [x] + f) == [PureField(t, x)] + PureFields(t, f)
  {
  }

  lemma {:induction false} PureDrop(t: Table, f: Fields, ks: set<Name>)
    ensures Drop(PureFields(t, f), ks) == PureFields(t, Drop(f, ks))
  {
    if f != [] {
      var x, r := f[0], f[1..];
      PureDrop(t, r, ks);
      assert f == [x] + r;
      PureCons(t, x, r);
      PureCons(t, x, Drop(r, ks));
      var y := PureField(t, x);
      assert ([y] + PureFields(t, r))[1..] == PureFields(t, r);
    }
  }

  lemma PureKeys(t: Table, f: Fields, k: Name)
    ensures Index(PureFields(t, f), k) == Index(f, k)
  {
    SameKeys(f, PureFields(t, f), k);
  }

  lemma PureKeySet(t: Table, f: Fields)
    ensures KeySet(PureFields(t, f)) == KeySet(f)
  {
    forall k ensures k in KeySet(PureFields(t, f)) <==> k in KeySet(f) {
      PureKeys(t, f, k);
      HasIff(f, k);
      HasIff(PureFields(t, f), k);
    }
  }

  lemma PureMerge(t: Table, a: Fields, d: Fields)
    ensures PureFields(t, Merge(a, d)) == Merge(PureFields(t, a), PureFields(t, d))
  {
    PureKeySet(t, a);
    PureDrop(t, d, KeySet(a));
    assert PureFields(t, a + Drop(d, KeySet(a))) == PureFields(t, a) + PureFields(t, Drop(d, KeySet(a)));
  }

  /** Inert fields merge with the finished dictionary, if that has no `$ref` left. */
  lemma TopMerge(t: Table, a: Fields, e: Fields)
    requires AllInert(a) && !Has(e, Ref) && !Has(Top(t, e), Ref)
    ensures Top(t, Merge(a, e)) == Merge(a, Top(t, e))
  {
    var m := Merge(a, e);
    InertGet(a, e, Ref);
    InertGet(a, e, AllOf);
    if SingleAllOf(e) && Member(e).Obj? {
      var e', y := Drop(e, {AllOf}), Member(e).fields;
      DropMerge(a, e, {AllOf});
      MergeEmpty(y);
      if StrRef(y).Some? && e' != [] {
        MergeAssoc(a, e', Finished(t, StrRef(y).value));
      } else {
        MergeAssoc(a, e', y);
      }
    } else {
      ShapedMerge(a, e);
    }
  }

  /** Collapsing a member and finishing the result is finishing the member and merging it. */
  lemma TopCollapse(t: Table, a: Fields, x: Fields)
    requires AllInert(a) && !Has(x, AllOf)
    requires StrRef(x).Some? && (a != [] || |x| > 1) ==> Inlinable(t, StrRef(x).value)
    ensures var y := Top(t, x);
            Top(t, Merge(a, x)) ==
            if StrRef(y).Some? && a != [] then Merge(a, Finished(t, StrRef(y).value)) else Merge(a, y)
  {
    InertGet(a, x, Ref);
    InertGet(a, x, AllOf);
    if StrRef(x).Some? {
      DropMerge(a, x, {Ref});
      var b, e := Drop(x, {Ref}), Finished(t, StrRef(x).value);
      if |x| > 1 {
        InertLength(a, x, Ref);
        MergeAssoc(a, b, e);
        MergeGet(b, e, Ref);
        DropGet(x, {Ref}, Ref);
      } else {
        assert x == [x[0]] && b == [];
        ShapedRef(x);
        MergeEmpty(a);
        MergeEmpty(x);
        if a != [] { InertLength(a, x, Ref); }
      }
    } else {
      ShapedMerge(a, x);
      ShapedGet(x, Ref);
    }
  }

  lemma InertLength(a: Fields, x: Fields, k: Name)
    requires AllInert(a) && !Inert(k) && Has(x, k) && (a != [] || |x| > 1)
    ensures |Merge(a, x)| > 1
  {
    MergeGet(a, x, k);
    MergeEmpty(x);
    if a != [] {
      assert Merge(a, x)[0] == a[0];
      assert Index(Merge(a, x), k) != 0;
    }
  }

  lemma ShapedRef(x: Fields)
    requires |x| == 1 && Has(x, Ref)
    ensures Shaped(x) == x
  {
  }

  // ---- the two rewrites that do not descend keep the pure result ---------------------------

  lemma InlinedIsMerge(g: Fields, d: Fields)
    requires Has(g, Ref) && !Has(d, Ref)
    ensures Inlined(g, d) == Merge(Drop(g, {Ref}), d)
  {
    var G := KeySet(g);
    DropAppend(g, Drop(d, G), {Ref});
    DropDrop(d, G, {Ref});
    KeySetDrop(g, {Ref});
    HasIff(g, Ref);
    HasIff(d, Ref);
    DropAgree(d, G + {Ref}, KeySet(Drop(g, {Ref})));
  }

  lemma PureTop(t: Table, f: Fields)
    ensures Pure(t, Obj(f)) == Obj(Top(t, PureFields(t, Drop(f, {Default}))))
  {
    PureDrop(t, f, {Default});
  }

  lemma PureRef(t: Table, g: Fields)
    ensures Get(PureFields(t, g), Ref) == Get(g, Ref)
    ensures StrRef(PureFields(t, g)) == StrRef(g)
    ensures Inlines(PureFields(t, g)) == Inlines(g)
  {
    PureKeys(t, g, Ref);
  }

  lemma NoDefault(f: Fields)
    ensures !Has(Drop(f, {Default}), Default)
    ensures Drop(Drop(f, {Default}), {Default}) == Drop(f, {Default})
  {
    DropGet(f, {Default}, Default);
    DropDrop(f, {Default}, {Default});
    assert {Default} + {Default} == {Default};
  }

  lemma PureOfMerge(t: Table, a: Fields, d: Fields)
    requires AllInert(a)
    ensures Pure(t, Obj(Merge(a, d))) == Obj(Top(t, Merge(PureFields(t, a), PureFields(t, Drop(d, {Default})))))
  {
    DropMerge(a, d, {Default});
    PureTop(t, Merge(a, d));
    PureMerge(t, a, Drop(d, {Default}));
  }

  /** Inlining a definition, finished or not, does not change what the node is finished to. */
  lemma InlineKeepsPure(t: Table, f: Fields, d: Fields, key: DefKey)
    requires var g := Drop(f, {Default});
             Inlines(g) && InertBeside(g, Ref) && Names2(StrRef(g).value) == Some(key) && key in t.of
    requires !Has(d, Ref) && Pure(t, Obj(d)) == Obj(t.of[key]) && !Has(t.of[key], Ref)
    ensures Pure(t, Obj(Inlined(Drop(f, {Default}), d))) == Pure(t, Obj(f))
  {
    var g := Drop(f, {Default});
    var a := Drop(g, {Ref});
    InlinedIsMerge(g, d);
    DropInert(g, Ref);
    PureOfMerge(t, a, d);
    var e := PureFields(t, Drop(d, {Default}));
    PureTop(t, d);
    DropGet(d, {Default}, Ref);
    PureRef(t, Drop(d, {Default}));
    PureInert(t, a);
    TopMerge(t, PureFields(t, a), e);
    PureTop(t, f);
    PureRef(t, g);
    PureDrop(t, g, {Ref});
  }

  lemma DropInert(g: Fields, k: Name)
    requires InertBeside(g, k)
    ensures AllInert(Drop(g, {k}))
  {
    var a := Drop(g, {k});
    forall i | 0 <= i < |a| ensures Inert(a[i].key) {
      DropMember(g, {k}, i);
    }
  }

  lemma PureInert(t: Table, a: Fields)
    requires AllInert(a)
    ensures AllInert(PureFields(t, a))
  {
    forall i | 0 <= i < |a| ensures Inert(PureFields(t, a)[i].key) {
      assert PureFields(t, a)[i] == PureField(t, a[i]);
    }
  }

  lemma CollapsedIsMerge(h: Fields, x: Fields)
    requires Has(h, AllOf) && !Has(x, AllOf)
    ensures Collapsed(h, x) == Merge(Drop(h, {AllOf}), x)
  {
    var H := KeySet(h);
    DropAppend(h, Drop(x, H), {AllOf});
    DropDrop(x, H, {AllOf});
    KeySetDrop(h, {AllOf});
    HasIff(h, AllOf);
    HasIff(x, AllOf);
    DropAgree(x, H + {AllOf}, KeySet(Drop(h, {AllOf})));
  }

  /** Nor does collapsing a single `allOf`, even when the definitions beside it are already finished. */
  lemma CollapseKeepsPure(t: Table, g: Fields, h: Fields)
    requires !Inlines(g) && SingleAllOf(g) && TopDomain(t, g) && TopDomain(t, Drop(Member(g).fields, {Default}))
    requires SingleAllOf(h) && Member(h) == Member(g) && InertBeside(h, AllOf)
    requires PureFields(t, h) == PureFields(t, g)
    ensures Pure(t, Obj(Collapsed(h, Member(h).fields))) == Obj(Top(t, PureFields(t, g)))
  {
    var x := Member(h).fields;
    var a := Drop(h, {AllOf});
    CollapsedIsMerge(h, x);
    DropInert(h, AllOf);
    PureOfMerge(t, a, x);
    var x' := Drop(x, {Default});
    var X, A, G := PureFields(t, x'), PureFields(t, a), PureFields(t, g);
    PureInert(t, a);
    DropGet(x, {Default}, Ref);
    DropGet(x, {Default}, AllOf);
    PureRef(t, x');
    PureKeys(t, x', AllOf);
    DropShorter(h, AllOf);
    TopCollapse(t, A, X);
    PureDrop(t, h, {AllOf});
    PureRef(t, g);
    PureTop(t, x);
    PureAllOf(t, g);
  }

  lemma {:induction false} DropShorter(f: Fields, k: Name)
    requires Has(f, k)
    ensures |Drop(f, {k})| < |f|
  {
    if f[0].key != k {
      assert f == [f[0]] + f[1..];
      ConsGet(f[0], f[1..], k);
      DropShorter(f[1..], k);
    }
  }

  lemma PureAllOf(t: Table, g: Fields)
    requires SingleAllOf(g)
    ensures SingleAllOf(PureFields(t, g)) && Member(PureFields(t, g)) == Pure(t, Member(g))
  {
    PureKeys(t, g, AllOf);
    var i := Index(g, AllOf);
    var v := Value(g, AllOf);
    assert PureFields(t, g)[i] == PureField(t, g[i]) == Field(AllOf, PureMembers(t, v));
    assert PureMembers(t, v) == Arr(PureItems(t, v.items));
  }

  // ---- the domain under the same two rewrites ----------------------------------------------

  lemma FieldsDomainDrop(t: Table, f: Fields, ks: set<Name>)
    requires FieldsDomain(t, f)
    ensures FieldsDomain(t, Drop(f, ks))
  {
    var r := Drop(f, ks);
    forall i | 0 <= i < |r| ensures FieldDomain(t, r[i]) {
      DropMember(f, ks, i);
    }
  }

  lemma FieldsDomainMerge(t: Table, a: Fields, d: Fields)
    requires FieldsDomain(t, a) && FieldsDomain(t, d)
    ensures FieldsDomain(t, Merge(a, d))
  {
    FieldsDomainDrop(t, d, KeySet(a));
  }

  lemma InlineKeepsDomain(t: Table, f: Fields, d: Fields)
    requires Domain(t, Obj(f)) && Domain(t, Obj(d)) && !Has(d, Ref) && Inlines(Drop(f, {Default}))
    requires !Has(Pure(t, Obj(d)).fields, Ref)
    ensures Domain(t, Obj(Inlined(Drop(f, {Default}), d)))
  {
    var g := Drop(f, {Default});
    var a := Drop(g, {Ref});
    InlinedIsMerge(g, d);
    DropInert(g, Ref);
    FieldsDomainDrop(t, f, {Default});
    FieldsDomainDrop(t, g, {Ref});
    FieldsDomainMerge(t, a, d);
    DropMerge(a, d, {Default});
    DropGet(d, {Default}, Ref);
    FieldsDomainDrop(t, d, {Default});
    PureTop(t, d);
    var e := Drop(d, {Default});
    if SingleAllOf(e) && |e| == 1 && StrRef(Member(e).fields).Some? { SoleMemberInlinable(t, e); }
    InertKeepsTopDomain(t, a, e);
  }

  /** If nothing but a `$ref` in a sole member is left of a dictionary, that `$ref` has siblings. */
  lemma SoleMemberInlinable(t: Table, e: Fields)
    requires !Has(e, Ref) && SingleAllOf(e) && |e| == 1 && TopDomain(t, e) && FieldsDomain(t, e)
    requires StrRef(Member(e).fields).Some? && !Has(Top(t, PureFields(t, e)), Ref)
    ensures Inlinable(t, StrRef(Member(e).fields).value)
  {
    var x := Member(e).fields;
    var x' := Drop(x, {Default});
    MemberDomain(t, e);
    DropGet(x, {Default}, Ref);
    DropGet(x, {Default}, AllOf);
    if !Inlines(x') {
      PureRef(t, e);
      PureAllOf(t, e);
      DropShorter(PureFields(t, e), AllOf);
      MergeEmpty(Pure(t, Obj(x)).fields);
      PlainKeepsRef(t, x);
    }
  }

  /** A dictionary that is neither inlined nor collapsed keeps its `$ref`. */
  lemma PlainKeepsRef(t: Table, x: Fields)
    requires !Inlines(Drop(x, {Default})) && !Has(x, AllOf)
    ensures Get(Pure(t, Obj(x)).fields, Ref) == Get(x, Ref)
  {
    var x' := Drop(x, {Default});
    DropGet(x, {Default}, Ref);
    DropGet(x, {Default}, AllOf);
    PureTop(t, x);
    PureRef(t, x');
    PureKeys(t, x', AllOf);
    ShapedGet(PureFields(t, x'), Ref);
  }

  lemma InertKeepsTopDomain(t: Table, a: Fields, e: Fields)
    requires AllInert(a) && !Has(e, Ref) && TopDomain(t, e)
    requires SingleAllOf(e) && StrRef(Member(e).fields).Some? ==> Inlinable(t, StrRef(Member(e).fields).value)
    ensures TopDomain(t, Merge(a, e))
  {
    InertGet(a, e, Ref);
    InertGet(a, e, AllOf);
    if SingleAllOf(e) { InertBesideMerge(a, e, AllOf); }
  }

  lemma InertBesideMerge(a: Fields, e: Fields, k: Name)
    requires AllInert(a) && InertBeside(e, k)
    ensures InertBeside(Merge(a, e), k)
  {
    var r := Drop(e, KeySet(a));
    forall i | 0 <= i < |r| ensures r[i].key == k || Inert(r[i].key) {
      DropMember(e, KeySet(a), i);
    }
  }

  lemma CollapseKeepsDomain(t: Table, g: Fields, h: Fields)
    requires !Inlines(g) && SingleAllOf(g) && TopDomain(t, g)
    requires SingleAllOf(h) && Member(h) == Member(g) && InertBeside(h, AllOf) && |h| == |g|
    requires FieldsDomain(t, h)
    ensures Domain(t, Obj(Collapsed(h, Member(h).fields)))
  {
    var x := Member(h).fields;
    var a := Drop(h, {AllOf});
    MemberDomain(t, h);
    CollapsedIsMerge(h, x);
    DropInert(h, AllOf);
    FieldsDomainDrop(t, h, {AllOf});
    FieldsDomainMerge(t, a, x);
    DropMerge(a, x, {Default});
    var x' := Drop(x, {Default});
    DropGet(x, {Default}, Ref);
    DropGet(x, {Default}, AllOf);
    DropShorter(h, AllOf);
    CollapseKeepsTop(t, a, x');
  }

  lemma CollapseKeepsTop(t: Table, a: Fields, x: Fields)
    requires AllInert(a) && TopDomain(t, x) && !Has(x, AllOf)
    requires StrRef(x).Some? && a != [] ==> Inlinable(t, StrRef(x).value)
    ensures TopDomain(t, Merge(a, x))
  {
    MergeEmpty(x);
    InertGet(a, x, Ref);
    InertGet(a, x, AllOf);
    if StrRef(x).Some? {
      if |x| == 1 { assert x[0].key == Ref; }
      InertBesideMerge(a, x, Ref);
    }
  }

  lemma MemberDomain(t: Table, h: Fields)
    requires FieldsDomain(t, h) && SingleAllOf(h)
    ensures Domain(t, Member(h))
  {
    var i, v := Index(h, AllOf), Value(h, AllOf);
    assert FieldDomain(t, h[i]) && h[i].key == AllOf;
    assert MembersDomain(t, v) && v == Arr(v.items);
    assert Domain(t, v.items[0]);
  }

  // ---- finished values ---------------------------------------------------------------------

  /** The pure normaliser leaves a value in normal form alone. */
  lemma {:induction false} PureOfNormal(t: Table, n: Json, d: nat)
    requires Normal(n, d) && Unique(n)
    ensures Pure(t, n) == n && Domain(t, n)
    decreases n, 1
  {
    match n
    case Obj(f) => DictOfNormal(t, f, d);
    case Arr(xs) =>
      forall i | 0 <= i < |xs| ensures Pure(t, xs[i]) == xs[i] && Domain(t, xs[i]) {
        assert Child(n, i) == xs[i];
        PureOfNormal(t, xs[i], d - 1);
      }
      assert PureItems(t, xs) == xs;
    case _ =>
  }

  lemma {:induction false} DictOfNormal(t: Table, f: Fields, d: nat)
    requires Normal(Obj(f), d) && Unique(Obj(f))
    ensures Pure(t, Obj(f)) == Obj(f) && Domain(t, Obj(f))
    decreases Obj(f), 0, 1
  {
    forall i | 0 <= i < |f| ensures PureField(t, f[i]) == f[i] && FieldDomain(t, f[i]) {
      IndexOfDistinct(f, i);
      FieldOfNormal(t, Obj(f), f, i, d - 1);
    }
    assert PureFields(t, f) == f;
    TopOfNormal(t, f);
  }

  lemma TopOfNormal(t: Table, f: Fields)
    requires TopNormal(f)
    ensures Top(t, Drop(f, {Default})) == f && TopDomain(t, Drop(f, {Default}))
  {
    TopIsFixed(f);
  }

  lemma {:induction false} FieldOfNormal(t: Table, n: Json, f: Fields, i: nat, d: nat)
    requires n == Obj(f) && i < |f| && Index(f, f[i].key) == i && Unique(n)
    requires f[i].key in SUBSCHEMA_KEYS ==> NormalUnder(n, f, f[i].key, d)
    ensures PureField(t, f[i]) == f[i] && FieldDomain(t, f[i])
    decreases n, 0, 0
  {
    var k, v := f[i].key, f[i].value;
    assert v == Child(n, i);
    UniqueChild(n, i);
    if k in SUBSCHEMA_KEYS {
      if k == Items {
        if !v.Null? { PureOfNormal(t, v, d); }
      } else if VisitsMembers(k, v) {
        forall j | 0 <= j < Size(v) ensures Pure(t, Child(v, j)) == Child(v, j) && Domain(t, Child(v, j)) {
          UniqueChild(v, j);
          PureOfNormal(t, Child(v, j), d);
        }
        MembersDetermine(t, v, v);
        MembersAreDomain(t, v);
      }
    }
  }

  lemma MembersAreDomain(t: Table, c: Json)
    requires forall j | 0 <= j < Size(c) :: Domain(t, Child(c, j))
    ensures MembersDomain(t, c)
  {
    if c.Obj? {
      forall i | 0 <= i < |c.fields| ensures ValueDomain(t, c.fields[i]) {
        assert Domain(t, Child(c, i));
      }
    } else if c.Arr? {
      forall i | 0 <= i < |c.items| ensures Domain(t, c.items[i]) {
        assert Domain(t, Child(c, i));
      }
    }
  }

  // ---- keys stay unique --------------------------------------------------------------------

  predicate UniqueFields(f: Fields) {
    Distinct(f) && forall i | 0 <= i < |f| :: Unique(f[i].value)
  }

  lemma UniqueObj(f: Fields)
    requires Unique(Obj(f))
    ensures UniqueFields(f)
  {
    forall i | 0 <= i < |f| ensures Unique(f[i].value) { UniqueChild(Obj(f), i); }
  }

  lemma ObjUnique(f: Fields)
    requires UniqueFields(f)
    ensures Unique(Obj(f))
  {
    forall i | 0 <= i < Size(Obj(f)) ensures Unique(Child(Obj(f), i)) { assert Child(Obj(f), i) == f[i].value; }
  }

  lemma UniqueDrop(f: Fields, ks: set<Name>)
    requires UniqueFields(f)
    ensures UniqueFields(Drop(f, ks))
  {
    DropDistinct(f, ks);
    var r := Drop(f, ks);
    forall i | 0 <= i < |r| ensures Unique(r[i].value) { DropMember(f, ks, i); }
  }

  lemma UniqueMerge(f: Fields, g: Fields)
    requires UniqueFields(f) && UniqueFields(g)
    ensures UniqueFields(Merge(f, g))
  {
    MergeDistinct(f, g);
    UniqueDrop(g, KeySet(f));
  }

  lemma UniquePut(f: Fields, k: Name, v: Json)
    requires UniqueFields(f) && Unique(v)
    ensures UniqueFields(Put(f, k, v))
  {
    IndexFirst(f, k);
  }

  lemma UniqueShaped(f: Fields)
    requires UniqueFields(f)
    ensures UniqueFields(Shaped(f))
  {
    var d := SetDefaults(f);
    if ObjectLike(f) && !Has(f, AdditionalProperties) {
      UniquePut(f, AdditionalProperties, Bool(false));
    }
    if Has(d, Properties) && Value(d, Properties).Obj? {
      UniquePut(d, Required, Arr(Names(Value(d, Properties).fields)));
    }
  }

  predicate UniqueTable(t: Table) {
    forall key | key in t.of :: UniqueFields(t.of[key])
  }

  lemma UniqueTop(t: Table, v: Fields)
    requires UniqueTable(t) && UniqueFields(v)
    ensures UniqueFields(Top(t, v))
  {
    if Inlines(v) {
      UniqueDrop(v, {Ref});
      UniqueMerge(Drop(v, {Ref}), Finished(t, StrRef(v).value));
    } else if SingleAllOf(v) && Member(v).Obj? {
      var a, y := Drop(v, {AllOf}), Member(v).fields;
      UniqueDrop(v, {AllOf});
      UniqueMember(v);
      if StrRef(y).Some? && a != [] {
        UniqueMerge(a, Finished(t, StrRef(y).value));
      } else {
        UniqueMerge(a, y);
      }
    } else {
      UniqueShaped(v);
    }
  }

  lemma UniqueMember(v: Fields)
    requires UniqueFields(v) && SingleAllOf(v) && Member(v).Obj?
    ensures UniqueFields(Member(v).fields)
  {
    var c := Value(v, AllOf);
    assert Unique(v[Index(v, AllOf)].value);
    UniqueChild(c, 0);
    assert Child(c, 0) == Member(v);
    UniqueObj(Member(v).fields);
  }

  lemma {:induction false} UniquePure(t: Table, n: Json)
    requires UniqueTable(t) && Unique(n)
    ensures Unique(Pure(t, n))
    decreases n, 1
  {
    match n
    case Obj(f) =>
      UniqueObj(f);
      UniquePureFields(t, f);
      UniqueDrop(PureFields(t, f), {Default});
      UniqueTop(t, Drop(PureFields(t, f), {Default}));
      ObjUnique(Top(t, Drop(PureFields(t, f), {Default})));
    case Arr(xs) => UniqueMembers(t, n);
    case _ =>
  }

  lemma {:induction false} UniquePureFields(t: Table, f: Fields)
    requires UniqueTable(t) && UniqueFields(f)
    ensures UniqueFields(PureFields(t, f))
    decreases f, 0
  {
    var r := PureFields(t, f);
    forall i | 0 <= i < |r| ensures r[i].key == f[i].key && Unique(r[i].value) {
      assert r[i] == PureField(t, f[i]);
      UniquePureField(t, f[i]);
    }
  }

  lemma {:induction false} UniquePureField(t: Table, x: Field)
    requires UniqueTable(t) && Unique(x.value)
    ensures Unique(PureField(t, x).value)
    decreases x, 0
  {
    match x.key
    case Items => UniquePure(t, x.value);
    case Properties | Defs | Definitions | AnyOf | OneOf | AllOf => UniqueMembers(t, x.value);
    case _ =>
  }

  lemma {:induction false} UniqueMembers(t: Table, c: Json)
    requires UniqueTable(t) && Unique(c)
    ensures Unique(PureMembers(t, c))
    decreases c, 0
  {
    var r := PureMembers(t, c);
    if c.Obj? || c.Arr? {
      forall i | 0 <= i < Size(c) ensures Unique(Pure(t, Child(c, i))) {
        UniqueChild(c, i);
        UniquePure(t, Child(c, i));
      }
      UniqueByMembers(t, c);
    }
  }

  lemma UniqueByMembers(t: Table, c: Json)
    requires (c.Obj? || c.Arr?) && (c.Obj? ==> Distinct(c.fields))
    requires forall i | 0 <= i < Size(c) :: Unique(Pure(t, Child(c, i)))
    ensures Unique(PureMembers(t, c))
  {
    var r := PureMembers(t, c);
    forall i | 0 <= i < Size(r) ensures Unique(Child(r, i)) {
      PureMembersChild(t, c, i);
    }
    if c.Obj? {
      forall i, j | 0 <= i < j < |r.fields| ensures r.fields[i].key != r.fields[j].key {
        assert r.fields[i] == PureValue(t, c.fields[i]) && r.fields[j] == PureValue(t, c.fields[j]);
      }
    }
  }
}
