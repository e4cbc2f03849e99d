/**
 The other half of refinement: an instance that the original schema accepts with all properties and no others at each
 visited object is accepted by the strict schema. With `SchemaRefinement` this says exactly what the strict schema
 accepts.
 */
module SchemaTightness {
  import opened Options
  import opened Json
  import opened SchemaNormalizer
  import opened SchemaDefinitions
  import opened SchemaNormalForm
  import opened SchemaTermination
  import opened PureNormalizer
  import opened InPlaceEqualsPure
  import opened FinishedDefinitions
  import opened SchemaSemantics
  import opened SchemaDepth
  import opened SchemaAcyclicity
  import opened SchemaRefinement

  // ---- merged dictionaries -----------------------------------------------------------------

  /** Silent fields add nothing to a dictionary. */
  lemma EvalMerge(kw: Meaning, n: nat, root: Json, a: Fields, e: Fields, i: Json)
    requires forall j | 0 <= j < |a| :: Silent(kw, a[j].key)
    requires Eval(kw, n, root, Obj(e), i)
    ensures Eval(kw, n, root, Obj(Merge(a, e)), i)
  {
    var m := Merge(a, e);
    SilentGet(kw, a, e);
    forall j | 0 <= j < |m| ensures Check(kw, n, root, PropertyNames(m), m[j], i) {
      if j < |a| {
        assert m[j] == a[j];
      } else {
        DropMember(e, KeySet(a), j - |a|);
        EvalField(kw, n, root, e, i, m[j]);
      }
    }
  }

  // ---- schemas that are not rewritten ------------------------------------------------------

  lemma {:induction false} RawAccepted(c: Setting, n: nat, m: nat, s: Json, i: Json)
    requires c.Valid() && Sound(c.kw, c.Original(), c.t.of.Keys, s) && m >= n
    requires Tight(c.kw, n, c.Original(), false, s, i)
    ensures Eval(c.kw, m, c.Strict(), s, i)
    decreases n, s, 5
  {
    if s.Obj? {
      var f := s.fields;
      forall j | 0 <= j < |f| ensures Check(c.kw, m, c.Strict(), PropertyNames(f), f[j], i) {
        assert SoundField(c.kw, c.Original(), c.t.of.Keys, f[j]);
        assert TightField(c.kw, n, c.Original(), false, PropertyNames(f), f[j], i);
        RawFieldAccepted(c, n, m, PropertyNames(f), f[j], i);
      }
    }
  }

  lemma {:induction false} RawFieldAccepted(c: Setting, n: nat, m: nat, props: set<Name>, x: Field, i: Json)
    requires c.Valid() && SoundField(c.kw, c.Original(), c.t.of.Keys, x) && m >= n
    requires TightField(c.kw, n, c.Original(), false, props, x, i)
    ensures Check(c.kw, m, c.Strict(), props, x, i)
    decreases n, x, 5
  {
    if x.key == Ref {
      RawRefField(c, n, m, props, x, i);
    } else if x.key in {AnyOf, OneOf, AllOf} {
      RawCombined(c, n, m, props, x, i);
    } else {
      RawOther(c, n, m, props, x, i);
    }
  }

  lemma {:induction false} RawRefField(c: Setting, n: nat, m: nat, props: set<Name>, x: Field, i: Json)
    requires c.Valid() && SoundField(c.kw, c.Original(), c.t.of.Keys, x) && m >= n
    requires TightField(c.kw, n, c.Original(), false, props, x, i)
    requires x.key == Ref
    ensures Check(c.kw, m, c.Strict(), props, x, i)
    decreases n, x, 1
  {
    if x.value.Str? {
      var k, l := RefPays(c.kw, n, m, c.Original(), false, props, x, i);
      RefAccepted(c, k, l, x.value.s, i);
      RefChecks(c.kw, m, l, c.Strict(), props, x, i);
    }
  }

  lemma {:induction false} RawCombined(c: Setting, n: nat, m: nat, props: set<Name>, x: Field, i: Json)
    requires c.Valid() && SoundField(c.kw, c.Original(), c.t.of.Keys, x) && m >= n
    requires TightField(c.kw, n, c.Original(), false, props, x, i)
    requires x.key in {AnyOf, OneOf, AllOf}
    ensures Check(c.kw, m, c.Strict(), props, x, i)
    decreases n, x, 4
  {
    match x.key
    case AnyOf => if x.value.Arr? { RawAnyAccepted(c, n, m, x.value.items, i); }
    case OneOf => if x.value.Arr? { RawOneAccepted(c, n, m, x.value.items, i); }
    case AllOf => if x.value.Arr? { RawAllAccepted(c, n, m, x.value.items, i); }
    case _ =>
  }

  lemma {:induction false} RawOther(c: Setting, n: nat, m: nat, props: set<Name>, x: Field, i: Json)
    requires c.Valid() && SoundField(c.kw, c.Original(), c.t.of.Keys, x) && m >= n
    requires TightField(c.kw, n, c.Original(), false, props, x, i)
    requires x.key !in {Ref, AnyOf, OneOf, AllOf}
    ensures Check(c.kw, m, c.Strict(), props, x, i)
    decreases n, x, 4
  {
    match x.key
    case Items => if i.Arr? { RawItemsAccepted(c, n, m, x.value, i.items); }
    case AdditionalProperties => if i.Obj? { RestAccepted(c, n, m, props, x.value, i.fields); }
    case Properties => if x.value.Obj? && i.Obj? { RawPropertiesAccepted(c, n, m, x.value.fields, i.fields); }
    case _ =>
  }

  lemma {:induction false} RawItemsAccepted(c: Setting, n: nat, m: nat, s: Json, vs: seq<Json>)
    requires c.Valid() && Sound(c.kw, c.Original(), c.t.of.Keys, s) && m >= n
    requires forall j | 0 <= j < |vs| :: Tight(c.kw, n, c.Original(), false, s, vs[j])
    ensures forall j | 0 <= j < |vs| :: Eval(c.kw, m, c.Strict(), s, vs[j])
    decreases n, s, 6
  {
    forall j | 0 <= j < |vs| ensures Eval(c.kw, m, c.Strict(), s, vs[j]) { RawAccepted(c, n, m, s, vs[j]); }
  }

  lemma {:induction false} RawAnyAccepted(c: Setting, n: nat, m: nat, xs: seq<Json>, i: Json)
    requires c.Valid() && SoundItems(c.kw, c.Original(), c.t.of.Keys, xs) && m >= n
    requires exists j | 0 <= j < |xs| :: Tight(c.kw, n, c.Original(), false, xs[j], i)
    ensures exists j | 0 <= j < |xs| :: Eval(c.kw, m, c.Strict(), xs[j], i)
    decreases n, xs, 6
  {
    var j :| 0 <= j < |xs| && Tight(c.kw, n, c.Original(), false, xs[j], i);
    RawAccepted(c, n, m, xs[j], i);
  }

  lemma {:induction false} RawAllAccepted(c: Setting, n: nat, m: nat, xs: seq<Json>, i: Json)
    requires c.Valid() && SoundItems(c.kw, c.Original(), c.t.of.Keys, xs) && m >= n
    requires forall j | 0 <= j < |xs| :: Tight(c.kw, n, c.Original(), false, xs[j], i)
    ensures forall j | 0 <= j < |xs| :: Eval(c.kw, m, c.Strict(), xs[j], i)
    decreases n, xs, 6
  {
    forall j | 0 <= j < |xs| ensures Eval(c.kw, m, c.Strict(), xs[j], i) { RawAccepted(c, n, m, xs[j], i); }
  }

  lemma {:induction false} RefAccepted(c: Setting, n: nat, m: nat, ref: string, i: Json)
    requires c.Valid() && KnownRef(c.t.of.Keys, ref) && m >= n && Target(c.Original(), ref).Some?
    requires Tight(c.kw, n, c.Original(), true, Target(c.Original(), ref).value, i)
    ensures Target(c.Strict(), ref).Some? && Eval(c.kw, m, c.Strict(), Target(c.Strict(), ref).value, i)
    decreases n, Target(c.Original(), ref).value, 4
  {
    var d := PlaceOfRef(c, ref);
    Accepted(c, n, m, d, i);
  }

  lemma {:induction false} RestAccepted(c: Setting, n: nat, m: nat, props: set<Name>, s: Json, vs: Fields)
    requires c.Valid() && Sound(c.kw, c.Original(), c.t.of.Keys, s) && m >= n
    requires forall j | 0 <= j < |vs| :: vs[j].key in props || Tight(c.kw, n, c.Original(), false, s, vs[j].value)
    ensures forall j | 0 <= j < |vs| :: vs[j].key in props || Eval(c.kw, m, c.Strict(), s, vs[j].value)
    decreases n, s, 6
  {
    forall j | 0 <= j < |vs| && vs[j].key !in props ensures Eval(c.kw, m, c.Strict(), s, vs[j].value) {
      RawAccepted(c, n, m, s, vs[j].value);
    }
  }

  lemma {:induction false} RawPropertiesAccepted(c: Setting, n: nat, m: nat, ps: Fields, vs: Fields)
    requires c.Valid() && SoundValues(c.kw, c.Original(), c.t.of.Keys, ps) && m >= n
    requires TightProperties(c.kw, n, c.Original(), false, ps, vs)
    ensures CheckProperties(c.kw, m, c.Strict(), ps, vs)
    decreases n, ps, 0
  {
    forall j | 0 <= j < |ps| ensures CheckProperty(c.kw, m, c.Strict(), ps[j], vs) {
      assert TightProperty(c.kw, n, c.Original(), false, ps[j], vs);
      assert SoundValue(c.kw, c.Original(), c.t.of.Keys, ps[j]);
      RawPropertyAccepted(c, n, m, ps[j], vs);
    }
  }

  lemma {:induction false} RawPropertyAccepted(c: Setting, n: nat, m: nat, x: Field, vs: Fields)
    requires c.Valid() && SoundValue(c.kw, c.Original(), c.t.of.Keys, x) && m >= n
    requires TightProperty(c.kw, n, c.Original(), false, x, vs)
    ensures CheckProperty(c.kw, m, c.Strict(), x, vs)
    decreases n, x, 0
  {
    if Has(vs, x.key) { RawAccepted(c, n, m, x.value, Value(vs, x.key)); }
  }

  /** At most one of exclusive alternatives can be accepted after the rewrite either. */
  lemma {:induction false} RawOneAccepted(c: Setting, n: nat, m: nat, xs: seq<Json>, i: Json)
    requires c.Valid() && SoundItems(c.kw, c.Original(), c.t.of.Keys, xs) && Exclusive(c.kw, c.Original(), xs) && m >= n
    requires TightOne(c.kw, n, c.Original(), false, xs, i)
    ensures ExactlyOne(c.kw, m, c.Strict(), xs, i)
    decreases n, xs, 0
  {
    var j :| 0 <= j < |xs| && Tight(c.kw, n, c.Original(), false, xs[j], i);
    RawAccepted(c, n, m, xs[j], i);
    forall q | 0 <= q < |xs| && q != j ensures !Eval(c.kw, m, c.Strict(), xs[q], i) {
      if Eval(c.kw, m, c.Strict(), xs[q], i) { RawOthers(c, n, m, xs, j, q, i); }
    }
  }

  lemma RawOthers(c: Setting, n: nat, m: nat, xs: seq<Json>, j: nat, q: nat, i: Json)
    requires c.Valid() && SoundItems(c.kw, c.Original(), c.t.of.Keys, xs) && Exclusive(c.kw, c.Original(), xs)
    requires j < |xs| && q < |xs| && q != j && Tight(c.kw, n, c.Original(), false, xs[j], i)
    ensures !Eval(c.kw, m, c.Strict(), xs[q], i)
  {
    if Eval(c.kw, m, c.Strict(), xs[q], i) {
      var k := c.Reach(m) + n;
      RawRefines(c, m, k, xs[q], i);
      TightAccepts(c, k, k, false, xs[q], i);
      TightAccepts(c, n, k, false, xs[j], i);
      assert false;
    }
  }

  // ---- schemas that are rewritten ----------------------------------------------------------

  /** What the original accepts with all properties and no others, the rewritten subschema accepts. */
  lemma {:induction false} Accepted(c: Setting, n: nat, m: nat, s: Json, i: Json)
    requires c.Valid() && c.Fit(s) && m >= n && Tight(c.kw, n, c.Original(), true, s, i)
    ensures Eval(c.kw, m, c.Strict(), Pure(c.t, s), i)
    decreases n, s, 3
  {
    if s.Obj? {
      var f := s.fields;
      var g := Drop(f, {Default});
      if Inlines(g) {
        InlinedAccepted(c, n, m, f, i);
      } else if SingleAllOf(g) {
        CollapsedAccepted(c, n, m, f, i);
      } else {
        PlainAccepted(c, n, m, f, i);
      }
    }
  }

  lemma TightOwn(c: Setting, n: nat, f: Fields, i: Json, k: Name)
    requires Tight(c.kw, n, c.Original(), true, Obj(f), i) && Has(f, k)
    ensures TightField(c.kw, n, c.Original(), true, PropertyNames(f), Field(k, Value(f, k)), i)
  {
    assert f[Index(f, k)] == Field(k, Value(f, k));
  }

  lemma {:induction false} InlinedAccepted(c: Setting, n: nat, m: nat, f: Fields, i: Json)
    requires c.Valid() && c.Fit(Obj(f)) && m >= n && Inlines(Drop(f, {Default}))
    requires Tight(c.kw, n, c.Original(), true, Obj(f), i)
    ensures Eval(c.kw, m, c.Strict(), Pure(c.t, Obj(f)), i)
    decreases n, Obj(f), 2
  {
    var d := InlinedParts(c, f);
    SilentRest(c.kw, c.t, Drop(f, {Default}), Ref);
    RefNeedsOne(c, n, f, i);
    RefMerged(c, n - 1, m, Drop(PureFields(c.t, Drop(f, {Default})), {Ref}), f, d, i);
  }

  lemma RefNeedsOne(c: Setting, n: nat, f: Fields, i: Json)
    requires Tight(c.kw, n, c.Original(), true, Obj(f), i) && StrRef(f).Some?
    ensures n > 0
  {
    TightOwn(c, n, f, i, Ref);
  }

  lemma OwnRefTight(c: Setting, n: nat, f: Fields, d: Json, i: Json)
    requires Tight(c.kw, n + 1, c.Original(), true, Obj(f), i)
    requires StrRef(f).Some? && Target(c.Original(), StrRef(f).value) == Some(d)
    ensures Tight(c.kw, n, c.Original(), true, d, i)
  {
    TightOwn(c, n + 1, f, i, Ref);
  }

  /** A dictionary in the place of the `$ref` that named it. */
  lemma {:induction false} RefMerged(c: Setting, n: nat, m: nat, a: Fields, f: Fields, d: Json, i: Json)
    requires c.Valid() && c.Fit(d) && d.Obj? && m >= n && Tight(c.kw, n + 1, c.Original(), true, Obj(f), i)
    requires StrRef(f).Some? && Target(c.Original(), StrRef(f).value) == Some(d)
    requires forall j | 0 <= j < |a| :: Silent(c.kw, a[j].key)
    ensures Eval(c.kw, m, c.Strict(), Obj(Merge(a, Pure(c.t, d).fields)), i)
    decreases n, d, 6
  {
    OwnRefTight(c, n, f, d, i);
    CopiedAccepted(c, n, m, a, d, i);
  }

  /** A dictionary, merged into silent fields. */
  lemma {:induction false} CopiedAccepted(c: Setting, n: nat, m: nat, a: Fields, d: Json, i: Json)
    requires c.Valid() && c.Fit(d) && d.Obj? && m >= n && Tight(c.kw, n, c.Original(), true, d, i)
    requires forall j | 0 <= j < |a| :: Silent(c.kw, a[j].key)
    ensures Eval(c.kw, m, c.Strict(), Obj(Merge(a, Pure(c.t, d).fields)), i)
    decreases n, d, 4
  {
    Accepted(c, n, m, d, i);
    EvalMerge(c.kw, m, c.Strict(), a, Pure(c.t, d).fields, i);
  }

  lemma {:induction false} CollapsedAccepted(c: Setting, n: nat, m: nat, f: Fields, i: Json)
    requires c.Valid() && c.Fit(Obj(f)) && m >= n
    requires !Inlines(Drop(f, {Default})) && SingleAllOf(Drop(f, {Default}))
    requires Tight(c.kw, n, c.Original(), true, Obj(f), i)
    ensures Eval(c.kw, m, c.Strict(), Pure(c.t, Obj(f)), i)
    decreases n, Obj(f), 2
  {
    CollapsedParts(c, f);
    SilentRest(c.kw, c.t, Drop(f, {Default}), AllOf);
    TightOwn(c, n, f, i, AllOf);
    MemberFits(c, f);
    MemberAccepted(c, n, m, Member(f).fields, Drop(PureFields(c.t, Drop(f, {Default})), {AllOf}), i);
  }

  lemma {:induction false} MemberAccepted(c: Setting, n: nat, m: nat, x: Fields, a: Fields, i: Json)
    requires c.Valid() && c.Fit(Obj(x)) && !Has(x, AllOf) && m >= n
    requires Tight(c.kw, n, c.Original(), true, Obj(x), i)
    requires a != [] && StrRef(x).Some? ==> Inlinable(c.t, StrRef(x).value)
    requires forall j | 0 <= j < |a| :: Silent(c.kw, a[j].key)
    ensures var y := Pure(c.t, Obj(x)).fields;
            Eval(c.kw, m, c.Strict(),
                 Obj(if StrRef(y).Some? && a != [] then Merge(a, Finished(c.t, StrRef(y).value)) else Merge(a, y)), i)
    decreases n, Obj(x), 5
  {
    var y := Pure(c.t, Obj(x)).fields;
    if StrRef(y).Some? && a != [] {
      SameRef(c.t, x);
      MemberRefAccepted(c, n, m, x, a, i);
    } else {
      CopiedAccepted(c, n, m, a, Obj(x), i);
    }
  }

  lemma SameRef(t: Table, x: Fields)
    requires !Has(x, AllOf) && Domain(t, Obj(x)) && StrRef(Pure(t, Obj(x)).fields).Some?
    ensures StrRef(x) == StrRef(Pure(t, Obj(x)).fields)
  {
    MemberRef(t, x);
  }

  lemma {:induction false} MemberRefAccepted(c: Setting, n: nat, m: nat, x: Fields, a: Fields, i: Json)
    requires c.Valid() && m >= n && Tight(c.kw, n, c.Original(), true, Obj(x), i)
    requires StrRef(x).Some? && Inlinable(c.t, StrRef(x).value)
    requires forall j | 0 <= j < |a| :: Silent(c.kw, a[j].key)
    ensures Eval(c.kw, m, c.Strict(), Obj(Merge(a, Finished(c.t, StrRef(x).value))), i)
    decreases n, Obj(x), 4
  {
    var d := InlinableDef(c, StrRef(x).value);
    RefNeedsOne(c, n, x, i);
    RefMerged(c, n - 1, m, a, x, d, i);
  }

  // ---- one field ---------------------------------------------------------------------------

  lemma {:induction false} FieldAccepted(c: Setting, n: nat, m: nat, props: set<Name>, x: Field, i: Json)
    requires c.Valid() && FieldFit(c, x) && m >= n && TightField(c.kw, n, c.Original(), true, props, x, i)
    ensures Check(c.kw, m, c.Strict(), props, PureField(c.t, x), i)
    decreases n, x, 3
  {
    var k := x.key;
    PureKind(c.t, x);
    if k == Properties {
      if x.value.Obj? && i.Obj? { PropertiesAccepted(c, n, m, x, i.fields); }
    } else if k == Items {
      ItemsAccepted(c, n, m, props, x, i);
    } else if k in {AnyOf, OneOf, AllOf} {
      if x.value.Arr? {
        PureCombined(c.t, x);
        CombinedAccepted(c, n, m, props, x, PureItems(c.t, x.value.items), i);
      }
    } else if k !in {Default, Defs, Definitions} {
      VisitedOrNot(c.kw, n, c.Original(), props, x, i);
      RawKeyAccepted(c, n, m, props, x, i);
    }
  }

  lemma PureKind(t: Table, x: Field)
    ensures x.key in {Properties, AnyOf, OneOf, AllOf} ==>
              PureField(t, x).value.Arr? == x.value.Arr? && PureField(t, x).value.Obj? == x.value.Obj?
  {
  }

  lemma {:induction false} RawKeyAccepted(c: Setting, n: nat, m: nat, props: set<Name>, x: Field, i: Json)
    requires c.Valid() && SoundField(c.kw, c.Original(), c.t.of.Keys, x) && m >= n
    requires x.key in {Ref, AdditionalProperties, Required, Type} || x.key.Text?
    requires TightField(c.kw, n, c.Original(), false, props, x, i)
    ensures Check(c.kw, m, c.Strict(), props, x, i)
    decreases n, x, 2
  {
    if x.key == Ref {
      RawRefField(c, n, m, props, x, i);
    } else if x.key == AdditionalProperties {
      if i.Obj? { RestAccepted(c, n, m, props, x.value, i.fields); }
    }
  }

  lemma {:induction false} ItemsAccepted(c: Setting, n: nat, m: nat, props: set<Name>, x: Field, i: Json)
    requires c.Valid() && FieldFit(c, x) && m >= n && x.key == Items
    requires TightField(c.kw, n, c.Original(), true, props, x, i)
    ensures Check(c.kw, m, c.Strict(), props, Field(Items, Pure(c.t, x.value)), i)
    decreases n, x, 2
  {
    if i.Arr? {
      forall j | 0 <= j < |i.items| ensures Eval(c.kw, m, c.Strict(), Pure(c.t, x.value), i.items[j]) {
        Accepted(c, n, m, x.value, i.items[j]);
      }
    }
  }

  lemma {:induction false} PropertiesAccepted(c: Setting, n: nat, m: nat, x: Field, vs: Fields)
    requires c.Valid() && FieldFit(c, x) && m >= n && x.key == Properties && x.value.Obj?
    requires TightProperties(c.kw, n, c.Original(), true, x.value.fields, vs)
    ensures CheckProperties(c.kw, m, c.Strict(), PureValues(c.t, x.value.fields), vs)
    decreases n, x, 2
  {
    var ps := x.value.fields;
    forall j | 0 <= j < |ps| ensures CheckProperty(c.kw, m, c.Strict(), PureValues(c.t, ps)[j], vs) {
      assert TightProperty(c.kw, n, c.Original(), true, ps[j], vs);
      assert PureValues(c.t, ps)[j] == PureValue(c.t, ps[j]);
      PropertyFits(c, x, j);
      if Has(vs, ps[j].key) { Accepted(c, n, m, ps[j].value, Value(vs, ps[j].key)); }
    }
  }

  lemma {:induction false} CombinedAccepted(
      c: Setting, n: nat, m: nat, props: set<Name>, x: Field, ys: seq<Json>, i: Json)
    requires c.Valid() && FieldFit(c, x) && m >= n && TightField(c.kw, n, c.Original(), true, props, x, i)
    requires x.key in {AnyOf, OneOf, AllOf} && x.value.Arr? && ys == PureItems(c.t, x.value.items)
    ensures Check(c.kw, m, c.Strict(), props, Field(x.key, Arr(ys)), i)
    decreases n, x, 2
  {
    var xs := x.value.items;
    if x.key == AnyOf {
      var j :| 0 <= j < |xs| && Tight(c.kw, n, c.Original(), true, xs[j], i);
      ItemsFit(c, x, j);
      Accepted(c, n, m, xs[j], i);
      assert Eval(c.kw, m, c.Strict(), ys[j], i);
    } else if x.key == OneOf {
      OneAccepted(c, n, m, x, ys, i);
    } else {
      forall j | 0 <= j < |ys| ensures Eval(c.kw, m, c.Strict(), ys[j], i) {
        ItemsFit(c, x, j);
        Accepted(c, n, m, xs[j], i);
      }
    }
  }

  lemma {:induction false} OneAccepted(c: Setting, n: nat, m: nat, x: Field, ys: seq<Json>, i: Json)
    requires c.Valid() && FieldFit(c, x) && m >= n && x.key == OneOf && x.value.Arr?
    requires ys == PureItems(c.t, x.value.items) && TightOne(c.kw, n, c.Original(), true, x.value.items, i)
    ensures ExactlyOne(c.kw, m, c.Strict(), ys, i)
    decreases n, x, 1
  {
    var xs := x.value.items;
    var j :| 0 <= j < |xs| && Tight(c.kw, n, c.Original(), true, xs[j], i);
    ItemsFit(c, x, j);
    Accepted(c, n, m, xs[j], i);
    forall q | 0 <= q < |ys| && q != j ensures !Eval(c.kw, m, c.Strict(), ys[q], i) { Others(c, n, m, x, j, q, i); }
  }

  lemma Others(c: Setting, n: nat, m: nat, x: Field, j: nat, q: nat, i: Json)
    requires c.Valid() && FieldFit(c, x) && x.key == OneOf && x.value.Arr?
    requires j < |x.value.items| && q < |x.value.items| && q != j
    requires Tight(c.kw, n, c.Original(), true, x.value.items[j], i)
    ensures !Eval(c.kw, m, c.Strict(), Pure(c.t, x.value.items[q]), i)
  {
    var xs := x.value.items;
    ItemsFit(c, x, j);
    ItemsFit(c, x, q);
    if Eval(c.kw, m, c.Strict(), Pure(c.t, xs[q]), i) {
      var k := c.Reach(m) + Weight(c.w, xs[q]) + n;
      Refines(c, m, k, xs[q], i);
      TightAccepts(c, k, k, true, xs[q], i);
      TightAccepts(c, n, k, true, xs[j], i);
      assert false;
    }
  }

  // ---- a dictionary that is neither inlined nor collapsed ----------------------------------

  /** Where a field of the strict dictionary comes from. */
  lemma ShapedMember(v: Fields, y: Field)
    requires y in Shaped(v)
    ensures || y in v
            || (y == Field(AdditionalProperties, Bool(false)) && DescribesObjects(v) && !Has(v, AdditionalProperties))
            || (Has(v, Properties) && Value(v, Properties).Obj? &&
                y == Field(Required, Arr(Names(Value(v, Properties).fields))))
  {
    var d := SetDefaults(v);
    ShapedDefaults(v);
    var j :| 0 <= j < |Shaped(v)| && Shaped(v)[j] == y;
    if j < |v| && Shaped(v)[j] == d[j] { assert d[j] == v[j]; }
  }

  lemma {:induction false} PlainAccepted(c: Setting, n: nat, m: nat, f: Fields, i: Json)
    requires c.Valid() && c.Fit(Obj(f)) && m >= n
    requires !Inlines(Drop(f, {Default})) && !SingleAllOf(Drop(f, {Default}))
    requires Tight(c.kw, n, c.Original(), true, Obj(f), i)
    ensures Eval(c.kw, m, c.Strict(), Pure(c.t, Obj(f)), i)
    decreases n, Obj(f), 2
  {
    var g := Drop(f, {Default});
    var v := PureFields(c.t, g);
    var s := Shaped(v);
    PureTop(c.t, f);
    PureRef(c.t, g);
    PureNotSingle(c.t, g);
    PlainProps(c.t, f);
    forall j | 0 <= j < |s| ensures Check(c.kw, m, c.Strict(), PropertyNames(s), s[j], i) {
      ShapedMember(v, s[j]);
      if s[j] in v { KeptAccepted(c, n, m, f, s[j], i); } else { NewAccepted(c, m, f, s[j], i); }
    }
  }

  lemma {:induction false} KeptAccepted(c: Setting, n: nat, m: nat, f: Fields, y: Field, i: Json)
    requires c.Valid() && c.Fit(Obj(f)) && m >= n && Tight(c.kw, n, c.Original(), true, Obj(f), i)
    requires y in PureFields(c.t, Drop(f, {Default}))
    ensures Check(c.kw, m, c.Strict(), PropertyNames(f), y, i)
    decreases n, Obj(f), 1
  {
    var g := Drop(f, {Default});
    var h :| 0 <= h < |g| && PureFields(c.t, g)[h] == y;
    DropMember(f, {Default}, h);
    var j :| 0 <= j < |f| && f[j] == g[h];
    FitField(c, f, j);
    assert TightField(c.kw, n, c.Original(), true, PropertyNames(f), f[j], i);
    FieldAccepted(c, n, m, PropertyNames(f), f[j], i);
  }

  /** What the rewriter added holds of objects with all properties and no others. */
  lemma NewAccepted(c: Setting, m: nat, f: Fields, y: Field, i: Json)
    requires Whole(f, i)
    requires var v := PureFields(c.t, Drop(f, {Default}));
             || (y == Field(AdditionalProperties, Bool(false)) && DescribesObjects(v) && !Has(v, AdditionalProperties))
             || (Has(v, Properties) && Value(v, Properties).Obj? &&
                 y == Field(Required, Arr(Names(Value(v, Properties).fields))))
    ensures Check(c.kw, m, c.Strict(), PropertyNames(f), y, i)
  {
    var g := Drop(f, {Default});
    SameObjects(c.t, f);
    DropGet(f, {Default}, Properties);
    PropsPure(c.t, g);
    if y.key == Required && i.Obj? {
      var ps := Value(f, Properties).fields;
      assert Names(PureValues(c.t, ps)) == Names(ps);
    }
  }

  // ---- what the strict schema accepts ------------------------------------------------------

  /** Exactly what the original accepts with all properties and no others. */
  lemma StrictAcceptsIff(c: Setting, i: Json)
    requires c.Valid()
    ensures Accepts(c.kw, c.Strict(), i) <==> AcceptsTightly(c.kw, c.Original(), i)
  {
    if Accepts(c.kw, c.Strict(), i) { StrictNarrows(c, i); }
    if AcceptsTightly(c.kw, c.Original(), i) {
      var lo: nat :| AcceptsTightlyFrom(c.kw, c.Original(), i, lo);
      assert c.Ready(None);
      forall m: nat | m >= lo ensures Eval(c.kw, m, c.Strict(), c.Strict(), i) { Accepted(c, lo, m, c.Original(), i); }
      assert AcceptsFrom(c.kw, c.Strict(), i, lo);
    }
  }

  ghost predicate Characterised(kw: Meaning, original: Json, result: Result<Json>) {
    result.Ok? ==> forall i :: Accepts(kw, result.value, i) <==> AcceptsTightly(kw, original, i)
  }

  /**
   The in-place rewriter succeeds on every schema of the refinement theorem, and what it returns accepts exactly the
   instances that the original accepts with all properties and no others at each object it visits.
   */
  lemma NormalizeCharacterised(kw: Meaning, rank: Ranks, targets: set<DefKey>, schema: Fields) returns (depth: nat)
    requires Refinable(kw, rank, targets, schema)
    ensures forall limit | limit >= depth :: Normalize(Obj(schema), limit).Ok?
    ensures forall limit: nat :: Characterised(kw, Obj(schema), Normalize(Obj(schema), limit))
  {
    var w := AcyclicWeights(rank, targets, {}, schema);
    var t := FinishedTable(rank, targets, schema, w);
    depth := Weight(w, Obj(schema));
    var c := Setting(kw, t, w, schema);
    SettingValid(c);
    forall limit | limit >= depth ensures Normalize(Obj(schema), limit) == Ok(c.Strict()) {
      InPlaceIsPure(t, w, schema, limit);
    }
    forall limit: nat ensures Characterised(kw, Obj(schema), Normalize(Obj(schema), limit)) {
      if Normalize(Obj(schema), limit).Ok? {
        MoreDepth(Obj(schema), limit, limit + depth);
        forall i ensures Accepts(kw, c.Strict(), i) <==> AcceptsTightly(kw, Obj(schema), i) { StrictAcceptsIff(c, i); }
      }
    }
  }
}
