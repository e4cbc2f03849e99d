/**
 The table of finished definitions of an acyclic schema, computed from the untouched document by
 rank, and the in-place theorem with hypotheses on the schema alone.
 */
module FinishedDefinitions {
  import opened Options
  import opened Json
  import opened SchemaNormalizer
  import opened SchemaDefinitions
  import opened SchemaNormalForm
  import opened SchemaTermination
  import SA = SchemaAcyclicity
  import opened PureNormalizer
  import opened InPlaceEqualsPure

  /** A table that says which definitions there are, with nothing in it. */
  function Shell(rank: SA.Ranks, targets: set<DefKey>): Table {
    Table(map key | key in rank :: [], targets)
  }

  // ---- the pure normaliser reads its table at the inlined `$ref`s only ---------------------

  predicate Inherits(t: Table, u: Table, refs: set<string>) {
    forall ref | ref in refs && Inlinable(t, ref) :: Inlinable(u, ref)
  }

  lemma {:induction false} DomainInherits(t: Table, u: Table, n: Json)
    requires Domain(t, n) && Inherits(t, u, SA.Refs(n))
    ensures Domain(u, n)
    decreases n, 1
  {
    match n
    case Obj(f) =>
      StrRefDropped(f);
      TopInherits(t, u, f);
      FieldsInherit(t, u, f);
    case Arr(xs) => ItemsInherit(t, u, xs);
    case _ =>
  }

  lemma TopInherits(t: Table, u: Table, f: Fields)
    requires TopDomain(t, Drop(f, {Default})) && Inherits(t, u, SA.Refs(Obj(f)))
    ensures TopDomain(u, Drop(f, {Default}))
  {
    var g := Drop(f, {Default});
    StrRefDropped(f);
    if !Inlines(g) && SingleAllOf(g) && |g| > 1 && StrRef(Member(g).fields).Some? {
      assert StrRef(Member(g).fields).value in SA.MemberRefs(g);
    }
  }

  lemma {:induction false} FieldRefsIn(f: Fields, i: nat)
    requires i < |f|
    ensures SA.FieldRefs(f[i]) <= SA.FieldsRefs(f)
  {
    if i > 0 { FieldRefsIn(f[1..], i - 1); }
  }

  lemma {:induction false} FieldsInherit(t: Table, u: Table, f: Fields)
    requires FieldsDomain(t, f) && Inherits(t, u, SA.FieldsRefs(f))
    ensures FieldsDomain(u, f)
    decreases f, 0
  {
    forall i | 0 <= i < |f| ensures FieldDomain(u, f[i]) {
      FieldRefsIn(f, i);
      assert FieldDomain(t, f[i]);
      FieldInherits(t, u, f[i]);
    }
  }

  lemma {:induction false} FieldInherits(t: Table, u: Table, x: Field)
    requires FieldDomain(t, x) && Inherits(t, u, SA.FieldRefs(x))
    ensures FieldDomain(u, x)
    decreases x, 0
  {
    match x.key
    case Items => DomainInherits(t, u, x.value);
    case Properties => if x.value.Obj? { MembersInherit(t, u, x.value); }
    case Defs | Definitions | AnyOf | OneOf | AllOf => MembersInherit(t, u, x.value);
    case _ =>
  }

  lemma {:induction false} MembersInherit(t: Table, u: Table, c: Json)
    requires MembersDomain(t, c) && Inherits(t, u, SA.MembersRefs(c))
    ensures MembersDomain(u, c)
    decreases c, 0
  {
    match c
    case Obj(f) =>
      forall i | 0 <= i < |f| ensures ValueDomain(u, f[i]) {
        ValueRefsIn(f, i);
        assert ValueDomain(t, f[i]);
        ValueInherits(t, u, f[i]);
      }
    case Arr(xs) => ItemsInherit(t, u, xs);
    case _ =>
  }

  lemma {:induction false} ValueInherits(t: Table, u: Table, x: Field)
    requires ValueDomain(t, x) && Inherits(t, u, SA.ValueRefs(x))
    ensures ValueDomain(u, x)
    decreases x, 0
  {
    DomainInherits(t, u, x.value);
  }

  lemma {:induction false} ValueRefsIn(f: Fields, i: nat)
    requires i < |f|
    ensures SA.ValueRefs(f[i]) <= SA.ValuesRefs(f)
  {
    if i > 0 { ValueRefsIn(f[1..], i - 1); }
  }

  lemma {:induction false} ItemRefsIn(xs: seq<Json>, i: nat)
    requires i < |xs|
    ensures SA.Refs(xs[i]) <= SA.ItemsRefs(xs)
  {
    if i > 0 { ItemRefsIn(xs[1..], i - 1); }
  }

  lemma {:induction false} ItemsInherit(t: Table, u: Table, xs: seq<Json>)
    requires (forall i | 0 <= i < |xs| :: Domain(t, xs[i])) && Inherits(t, u, SA.ItemsRefs(xs))
    ensures forall i | 0 <= i < |xs| :: Domain(u, xs[i])
    decreases xs, 0
  {
    forall i | 0 <= i < |xs| ensures Domain(u, xs[i]) {
      ItemRefsIn(xs, i);
      DomainInherits(t, u, xs[i]);
    }
  }

  predicate SameFinished(t: Table, u: Table, refs: set<string>) {
    forall ref | ref in refs :: Finished(t, ref) == Finished(u, ref)
  }

  lemma {:induction false} PureSame(t: Table, u: Table, n: Json)
    requires Domain(t, n) && SameFinished(t, u, SA.Refs(n))
    ensures Pure(t, n) == Pure(u, n)
    decreases n, 1
  {
    match n
    case Obj(f) =>
      PureFieldsSame(t, u, f);
      var g := Drop(f, {Default});
      PureDrop(t, f, {Default});
      TopSame(t, u, f);
    case Arr(xs) => PureItemsSame(t, u, xs);
    case _ =>
  }

  lemma TopSame(t: Table, u: Table, f: Fields)
    requires Domain(t, Obj(f)) && SameFinished(t, u, SA.Refs(Obj(f)))
    ensures var v := PureFields(t, Drop(f, {Default})); Top(t, v) == Top(u, v)
  {
    var g := Drop(f, {Default});
    StrRefDropped(f);
    PureRef(t, g);
    if !Inlines(g) {
      PureNotSingle(t, g);
      if SingleAllOf(g) {
        FieldsDomainDrop(t, f, {Default});
        CollapsedSame(t, u, f, g);
      }
    }
  }

  lemma CollapsedSame(t: Table, u: Table, f: Fields, g: Fields)
    requires g == Drop(f, {Default}) && SingleAllOf(g) && !Inlines(g) && TopDomain(t, g) && FieldsDomain(t, g)
    requires SameFinished(t, u, SA.Refs(Obj(f)))
    ensures Top(t, PureFields(t, g)) == Top(u, PureFields(t, g))
  {
    var v := PureFields(t, g);
    PureRef(t, g);
    PureAllOf(t, g);
    MemberDomain(t, g);
    MemberRef(t, Member(g).fields);
    if Drop(v, {AllOf}) != [] && StrRef(Member(v).fields).Some? {
      DropShorter(v, AllOf);
      assert StrRef(Member(g).fields).value in SA.MemberRefs(g);
    }
  }

  /** What is left of a `$ref` in the sole member of an `allOf` was there before. */
  lemma MemberRef(t: Table, x: Fields)
    requires !Has(x, AllOf) && TopDomain(t, Drop(x, {Default}))
    ensures var y := Pure(t, Obj(x)).fields;
            && (Has(y, Ref) ==> Get(y, Ref) == Get(x, Ref) && !Inlines(Drop(x, {Default})))
  {
    var g := Drop(x, {Default});
    var v := PureFields(t, g);
    PureTop(t, x);
    DropGet(x, {Default}, Ref);
    DropGet(x, {Default}, AllOf);
    PureRef(t, g);
    PureKeys(t, g, AllOf);
    if Inlines(g) {
      MergeGet(Drop(v, {Ref}), Finished(t, StrRef(v).value), Ref);
      DropGet(v, {Ref}, Ref);
    } else {
      ShapedGet(v, Ref);
    }
  }

  lemma {:induction false} PureFieldsSame(t: Table, u: Table, f: Fields)
    requires FieldsDomain(t, f) && SameFinished(t, u, SA.FieldsRefs(f))
    ensures PureFields(t, f) == PureFields(u, f)
    decreases f, 0
  {
    forall i | 0 <= i < |f| ensures PureField(t, f[i]) == PureField(u, f[i]) {
      FieldRefsIn(f, i);
      assert FieldDomain(t, f[i]);
      PureFieldSame(t, u, f[i]);
    }
  }

  lemma {:induction false} PureFieldSame(t: Table, u: Table, x: Field)
    requires FieldDomain(t, x) && SameFinished(t, u, SA.FieldRefs(x))
    ensures PureField(t, x) == PureField(u, x)
    decreases x, 0
  {
    match x.key
    case Items => PureSame(t, u, x.value);
    case Properties => if x.value.Obj? { PureMembersSame(t, u, x.value); }
    case Defs | Definitions | AnyOf | OneOf | AllOf => PureMembersSame(t, u, x.value);
    case _ =>
  }

  lemma {:induction false} PureMembersSame(t: Table, u: Table, c: Json)
    requires MembersDomain(t, c) && SameFinished(t, u, SA.MembersRefs(c))
    ensures PureMembers(t, c) == PureMembers(u, c)
    decreases c, 0
  {
    match c
    case Obj(f) =>
      forall i | 0 <= i < |f| ensures PureValue(t, f[i]) == PureValue(u, f[i]) {
        ValueRefsIn(f, i);
        assert ValueDomain(t, f[i]);
        PureValueSame(t, u, f[i]);
      }
      assert PureValues(t, f) == PureValues(u, f);
    case Arr(xs) => PureItemsSame(t, u, xs);
    case _ =>
  }

  lemma {:induction false} PureValueSame(t: Table, u: Table, x: Field)
    requires ValueDomain(t, x) && SameFinished(t, u, SA.ValueRefs(x))
    ensures PureValue(t, x) == PureValue(u, x)
    decreases x, 0
  {
    PureSame(t, u, x.value);
  }

  lemma {:induction false} PureItemsSame(t: Table, u: Table, xs: seq<Json>)
    requires (forall i | 0 <= i < |xs| :: Domain(t, xs[i])) && SameFinished(t, u, SA.ItemsRefs(xs))
    ensures PureItems(t, xs) == PureItems(u, xs)
    decreases xs, 0
  {
    forall i | 0 <= i < |xs| ensures Pure(t, xs[i]) == Pure(u, xs[i]) {
      ItemRefsIn(xs, i);
      PureSame(t, u, xs[i]);
    }
  }

  // ---- the table, rank by rank -------------------------------------------------------------

  /**
   A definition whose finished form has no `$ref`: it has none itself, and if it is a single `allOf`
   whose member is a `$ref`, then that `$ref` has siblings or the definition has.
   */
  predicate RefFree(f: Fields) {
    var g := Drop(f, {Default});
    && !Has(f, Ref)
    && (SingleAllOf(g) && Member(g).Obj? ==>
          var x := Drop(Member(g).fields, {Default});
          Has(x, Ref) ==> StrRef(x).Some? && (|x| > 1 || |g| > 1))
  }

  /** What the schema has to satisfy for the order of rewriting not to matter. */
  predicate OrderFree(rank: SA.Ranks, targets: set<DefKey>, f: Fields) {
    && SA.Acyclic(rank, targets, {}, f)
    && Domain(Shell(rank, targets), Obj(f)) && Unique(Obj(f))
    && forall key | key in rank && key in targets :: RefFree(Def(Obj(f), key).value.fields)
  }

  lemma DefParts(rank: SA.Ranks, targets: set<DefKey>, f: Fields, key: DefKey)
    requires OrderFree(rank, targets, f) && key in rank
    ensures var d := Def(Obj(f), key).value; Domain(Shell(rank, targets), d) && Unique(d)
  {
    assert key.0 in {Defs, Definitions} && Def(Obj(f), key).Some?;
    DefWithin(Shell(rank, targets), f, key);
  }

  /** A definition is in the domain of a table if the document is. */
  lemma DefWithin(t: Table, f: Fields, key: DefKey)
    requires Domain(t, Obj(f)) && Unique(Obj(f)) && key.0 in {Defs, Definitions} && Def(Obj(f), key).Some?
    ensures var d := Def(Obj(f), key).value; Domain(t, d) && Unique(d)
  {
    var i := Index(f, key.0);
    var c := Value(f, key.0);
    assert FieldsDomain(t, f);
    assert FieldDomain(t, f[i]) && f[i] == Field(key.0, c);
    UniqueChild(Obj(f), i);
    MembersOfKey(t, c);
    assert Child(c, Index(c.fields, key.1)) == Def(Obj(f), key).value;
  }

  lemma FinishedHasNoRef(t: Table, f: Fields)
    requires RefFree(f) && Domain(t, Obj(f)) && Unique(Obj(f))
    ensures !Has(Pure(t, Obj(f)).fields, Ref)
  {
    var g := Drop(f, {Default});
    PureTop(t, f);
    DropGet(f, {Default}, Ref);
    PureRef(t, g);
    PureNotSingle(t, g);
    if SingleAllOf(g) {
      DropDistinct(f, {Default});
      FieldsDomainDrop(t, f, {Default});
      CollapsedHasNoRef(t, g);
    } else {
      ShapedGet(PureFields(t, g), Ref);
    }
  }

  lemma CollapsedHasNoRef(t: Table, g: Fields)
    requires !Has(g, Ref) && SingleAllOf(g) && TopDomain(t, g) && FieldsDomain(t, g) && Distinct(g)
    requires var x := Drop(Member(g).fields, {Default}); Has(x, Ref) ==> StrRef(x).Some? && (|x| > 1 || |g| > 1)
    ensures !Has(Top(t, PureFields(t, g)), Ref)
  {
    var v := PureFields(t, g);
    PureRef(t, g);
    PureAllOf(t, g);
    var x := Member(g).fields;
    var a, y := Drop(v, {AllOf}), Member(v).fields;
    DropGet(v, {AllOf}, Ref);
    DropGet(x, {Default}, Ref);
    MemberDomain(t, g);
    MemberRef(t, x);
    if Has(y, Ref) {
      BesideSomething(t, g);
      MergeGet(a, Finished(t, StrRef(y).value), Ref);
    } else {
      MergeGet(a, y, Ref);
    }
  }

  lemma BesideSomething(t: Table, g: Fields)
    requires Has(g, AllOf) && |g| > 1 && Distinct(g)
    ensures Drop(PureFields(t, g), {AllOf}) != []
  {
    PureDrop(t, g, {AllOf});
    var i := if Index(g, AllOf) == 0 then 1 else 0;
    assert g[i].key != AllOf;
    DropGet(g, {AllOf}, g[i].key);
    HasIff(g, g[i].key);
  }

  /** `t` holds the finished forms of the definitions of rank below `n`. */
  predicate FinishedBelow(rank: SA.Ranks, targets: set<DefKey>, f: Fields, n: nat, t: Table) {
    && t.of.Keys == SA.Below(rank, n) && t.targets == targets && UniqueTable(t)
    && forall key | key in t.of :: Solved(t, Obj(f), key)
  }

  lemma InheritsShell(rank: SA.Ranks, targets: set<DefKey>, f: Fields, n: nat, t: Table, refs: set<string>)
    requires FinishedBelow(rank, targets, f, n, t) && SA.Resolved(rank, targets, {}, refs, n)
    ensures Inherits(Shell(rank, targets), t, refs)
  {
    forall ref | ref in refs && Inlinable(Shell(rank, targets), ref) ensures Inlinable(t, ref) {
      assert Solved(t, Obj(f), Names2(ref).value);
    }
  }

  /** The definition is in the domain of a table that has everything below it. */
  lemma DefInDomain(rank: SA.Ranks, targets: set<DefKey>, f: Fields, n: nat, t: Table, key: DefKey)
    requires OrderFree(rank, targets, f) && key in rank && rank[key] <= n && FinishedBelow(rank, targets, f, n, t)
    ensures Domain(t, Def(Obj(f), key).value)
  {
    var d := Def(Obj(f), key).value;
    DefParts(rank, targets, f, key);
    DefResolved(rank, targets, f, key);
    InheritsShell(rank, targets, f, n, t, SA.Refs(d));
    DomainInherits(Shell(rank, targets), t, d);
  }

  /** The finished form of a definition from a table that has everything below it. */
  function Entry(f: Fields, t: Table, key: DefKey): Fields {
    var d := Def(Obj(f), key);
    if key in t.of then t.of[key] else if d.Some? && d.value.Obj? then Pure(t, d.value).fields else []
  }

  function Extended(rank: SA.Ranks, f: Fields, n: nat, t: Table): Table {
    Table(map key | key in SA.Below(rank, n + 1) :: Entry(f, t, key), t.targets)
  }

  lemma EntryIsFinished(rank: SA.Ranks, targets: set<DefKey>, f: Fields, n: nat, t: Table, key: DefKey)
    requires OrderFree(rank, targets, f) && FinishedBelow(rank, targets, f, n, t) && key in SA.Below(rank, n + 1)
    ensures var d := Def(Obj(f), key).value;
            && Pure(t, d) == Obj(Entry(f, t, key)) && UniqueFields(Entry(f, t, key))
            && (key in targets ==> !Has(d.fields, Ref) && !Has(Entry(f, t, key), Ref))
  {
    var d := Def(Obj(f), key).value;
    DefParts(rank, targets, f, key);
    DefInDomain(rank, targets, f, n, t, key);
    if key in t.of {
      assert Solved(t, Obj(f), key);
    } else {
      UniquePure(t, d);
      UniqueObj(Pure(t, d).fields);
      if key in targets { FinishedHasNoRef(t, d.fields); }
    }
  }

  /** The definition inlines only what the table has. */
  lemma DefResolved(rank: SA.Ranks, targets: set<DefKey>, f: Fields, key: DefKey)
    requires OrderFree(rank, targets, f) && key in rank
    ensures SA.Resolved(rank, targets, {}, SA.Refs(Def(Obj(f), key).value), rank[key])
  {
    assert SA.Resolved(rank, targets, {}, SA.DefRefs(targets, key, Def(Obj(f), key).value.fields), rank[key]);
  }

  lemma ExtendedKeeps(rank: SA.Ranks, f: Fields, n: nat, t: Table, key: DefKey)
    requires t.of.Keys == SA.Below(rank, n) && key in t.of
    ensures var u := Extended(rank, f, n, t); key in u.of && u.of[key] == t.of[key] && u.targets == t.targets
  {
    assert key in SA.Below(rank, n) && key in SA.Below(rank, n + 1);
  }

  lemma ExtendedSame(rank: SA.Ranks, f: Fields, n: nat, t: Table, refs: set<string>)
    requires t.of.Keys == SA.Below(rank, n) && SA.Resolved(rank, t.targets, {}, refs, n)
    ensures SameFinished(t, Extended(rank, f, n, t), refs) && Inherits(t, Extended(rank, f, n, t), refs)
  {
    var u := Extended(rank, f, n, t);
    forall ref | ref in refs ensures Finished(t, ref) == Finished(u, ref) && (Inlinable(t, ref) ==> Inlinable(u, ref)) {
      ExtendedKeeps(rank, f, n, t, Names2(ref).value);
    }
  }

  /** The extended table finishes every definition as the smaller one did. */
  lemma ExtendedAgrees(rank: SA.Ranks, targets: set<DefKey>, f: Fields, n: nat, t: Table, key: DefKey)
    requires OrderFree(rank, targets, f) && FinishedBelow(rank, targets, f, n, t) && key in SA.Below(rank, n + 1)
    ensures var d, u := Def(Obj(f), key).value, Extended(rank, f, n, t);
            Domain(u, d) && Pure(u, d) == Pure(t, d)
  {
    var d, u := Def(Obj(f), key).value, Extended(rank, f, n, t);
    DefInDomain(rank, targets, f, n, t, key);
    DefResolved(rank, targets, f, key);
    ExtendedSame(rank, f, n, t, SA.Refs(d));
    PureSame(t, u, d);
    DomainInherits(t, u, d);
  }

  lemma ExtendedSolves(rank: SA.Ranks, targets: set<DefKey>, f: Fields, n: nat, t: Table, key: DefKey)
    requires OrderFree(rank, targets, f) && FinishedBelow(rank, targets, f, n, t) && key in SA.Below(rank, n + 1)
    ensures var u := Extended(rank, f, n, t); key in u.of && Solved(u, Obj(f), key) && UniqueFields(u.of[key])
  {
    EntryIsFinished(rank, targets, f, n, t, key);
    ExtendedAgrees(rank, targets, f, n, t, key);
    DefParts(rank, targets, f, key);
  }

  lemma Extend(rank: SA.Ranks, targets: set<DefKey>, f: Fields, n: nat, t: Table, u: Table)
    requires OrderFree(rank, targets, f) && FinishedBelow(rank, targets, f, n, t) && u == Extended(rank, f, n, t)
    ensures FinishedBelow(rank, targets, f, n + 1, u)
  {
    assert u.of.Keys == SA.Below(rank, n + 1) && u.targets == targets;
    forall key | key in u.of ensures Solved(u, Obj(f), key) && UniqueFields(u.of[key]) {
      ExtendedSolves(rank, targets, f, n, t, key);
    }
  }

  lemma NothingBelow(rank: SA.Ranks, targets: set<DefKey>, f: Fields)
    ensures FinishedBelow(rank, targets, f, 0, Table(map[], targets))
  {
    assert SA.Below(rank, 0) == {};
  }

  lemma {:induction false} Finish(rank: SA.Ranks, targets: set<DefKey>, f: Fields, n: nat) returns (t: Table)
    requires OrderFree(rank, targets, f)
    ensures FinishedBelow(rank, targets, f, n, t)
    decreases n, 0
  {
    if n == 0 {
      t := Table(map[], targets);
      NothingBelow(rank, targets, f);
    } else {
      t := FinishNext(rank, targets, f, n - 1);
    }
  }

  lemma {:induction false} FinishNext(rank: SA.Ranks, targets: set<DefKey>, f: Fields, n: nat) returns (t: Table)
    requires OrderFree(rank, targets, f)
    ensures FinishedBelow(rank, targets, f, n + 1, t)
    decreases n, 1
  {
    var s := Finish(rank, targets, f, n);
    t := Extended(rank, f, n, s);
    Extend(rank, targets, f, n, s, t);
  }

  /** The finished definitions of `schema`: the table that the pure normaliser works from. */
  lemma FinishedTable(rank: SA.Ranks, targets: set<DefKey>, schema: Fields, w: Weights) returns (t: Table)
    requires OrderFree(rank, targets, schema) && w.of.Keys == rank.Keys && w.broken == {} && Weighed(w, schema)
    ensures Matching(t, w) && RootSolved(t, w, schema) && Domain(t, Obj(schema))
  {
    var n;
    n, t := FullTable(rank, targets, schema);
    SolvedByTable(rank, targets, schema, schema, n, t, w);
  }

  /**
   The in-place rewriter agrees with the pure normaliser on every acyclic schema in the domain: there
   is one table of finished definitions, each the pure form of the untouched definition, and one depth
   from which on rewriting in place yields the pure form of the untouched schema.
   */
  lemma InPlaceEqualsPureWhenAcyclic(
      rank: SA.Ranks, targets: set<DefKey>, schema: Fields) returns (t: Table, depth: nat)
    requires OrderFree(rank, targets, schema)
    ensures t.of.Keys == rank.Keys
    ensures forall key | key in rank ::
              Def(Obj(schema), key).Some? && Pure(t, Def(Obj(schema), key).value) == Obj(t.of[key])
    ensures forall limit | limit >= depth :: Normalize(Obj(schema), limit) == Ok(Pure(t, Obj(schema)))
  {
    var w := SA.AcyclicWeights(rank, targets, {}, schema);
    t := FinishedTable(rank, targets, schema, w);
    depth := Weight(w, Obj(schema));
    forall key | key in rank ensures Pure(t, Def(Obj(schema), key).value) == Obj(t.of[key]) {
      assert Solved(t, Obj(schema), key);
    }
    forall limit | limit >= depth ensures Normalize(Obj(schema), limit) == Ok(Pure(t, Obj(schema))) {
      InPlaceIsPure(t, w, schema, limit);
    }
  }

  /**
   The order of visiting does not matter: two documents with the same definitions, wherever and in
   whatever order they list them and the rest, are rewritten from one table, so that a subschema that
   occurs in both becomes the same thing in both.
   */
  lemma OrderDoesNotMatter(rank: SA.Ranks, targets: set<DefKey>, f: Fields, g: Fields) returns (t: Table, depth: nat)
    requires OrderFree(rank, targets, f) && OrderFree(rank, targets, g)
    requires forall key | key in rank :: Def(Obj(f), key) == Def(Obj(g), key)
    ensures forall limit | limit >= depth :: Normalize(Obj(f), limit) == Ok(Pure(t, Obj(f)))
    ensures forall limit | limit >= depth :: Normalize(Obj(g), limit) == Ok(Pure(t, Obj(g)))
  {
    var n;
    n, t := FullTable(rank, targets, f);
    var a := Served(rank, targets, f, f, n, t);
    var b := Served(rank, targets, f, g, n, t);
    depth := a + b;
  }

  lemma FullTable(rank: SA.Ranks, targets: set<DefKey>, f: Fields) returns (n: nat, t: Table)
    requires OrderFree(rank, targets, f)
    ensures FinishedBelow(rank, targets, f, n, t) && SA.Below(rank, n) == rank.Keys
  {
    var top := SA.Bounded(rank);
    n := top + 1;
    SA.AllBelow(rank, n);
    t := Finish(rank, targets, f, n);
  }

  lemma Served(rank: SA.Ranks, targets: set<DefKey>, f: Fields, g: Fields, n: nat, t: Table) returns (depth: nat)
    requires OrderFree(rank, targets, g) && FinishedBelow(rank, targets, f, n, t) && SA.Below(rank, n) == rank.Keys
    requires forall key | key in rank :: Def(Obj(f), key) == Def(Obj(g), key)
    ensures forall limit | limit >= depth :: Normalize(Obj(g), limit) == Ok(Pure(t, Obj(g)))
  {
    var w := SA.AcyclicWeights(rank, targets, {}, g);
    SolvedByTable(rank, targets, f, g, n, t, w);
    depth := Weight(w, Obj(g));
    forall limit | limit >= depth ensures Normalize(Obj(g), limit) == Ok(Pure(t, Obj(g))) {
      InPlaceIsPure(t, w, g, limit);
    }
  }

  /** A table of finished definitions serves every document with these definitions. */
  lemma SolvedByTable(rank: SA.Ranks, targets: set<DefKey>, f: Fields, g: Fields, n: nat, t: Table, w: Weights)
    requires OrderFree(rank, targets, g) && FinishedBelow(rank, targets, f, n, t) && SA.Below(rank, n) == rank.Keys
    requires forall key | key in rank :: Def(Obj(f), key) == Def(Obj(g), key)
    requires w.of.Keys == rank.Keys && w.broken == {} && Weighed(w, g)
    ensures Matching(t, w) && RootSolved(t, w, g) && Domain(t, Obj(g))
  {
    InheritsShell(rank, targets, f, n, t, SA.Refs(Obj(g)));
    DomainInherits(Shell(rank, targets), t, Obj(g));
    forall key | key in t.of ensures Solved(t, Obj(g), key) { assert Solved(t, Obj(f), key); }
  }
}
