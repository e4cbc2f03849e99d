/**
 The strict schema only narrows: every instance it accepts is accepted by the original schema,
 recursive `$ref`s into the rewritten definitions included.
 */
module SchemaRefinement {
  import opened Options
  import opened Json
  import opened SchemaNormalizer
  import opened SchemaDefinitions
  import opened SchemaNormalForm
  import opened SchemaTermination
  import opened PureNormalizer
  import opened InPlaceEqualsPure
  import opened FinishedDefinitions
  import opened SchemaSemantics
  import opened SchemaDepth
  import opened SchemaAcyclicity

  // ---- the domain --------------------------------------------------------------------------

  /** A keyword that constrains no instance, such as `title` or `description`. */
  ghost predicate Annotation(kw: Meaning, k: Name) {
    k.Text? && forall v, i :: kw(k, v, i)
  }

  /** Fields that say nothing about an instance. */
  ghost predicate Silent(kw: Meaning, k: Name) {
    Annotation(kw, k) || k == Defs || k == Definitions
  }

  ghost predicate SilentBeside(kw: Meaning, g: Fields, k: Name) {
    forall j | 0 <= j < |g| :: g[j].key == k || Silent(kw, g[j].key)
  }

  predicate RequiredWithin(g: Fields) {
    Has(g, Properties) && Value(g, Properties).Obj? ==>
      forall j | 0 <= j < |g| && g[j].key == Required && g[j].value.Arr? ::
        forall m | 0 <= m < |g[j].value.items| && g[j].value.items[m].Str? ::
          g[j].value.items[m] in Names(Value(g, Properties).fields)
  }

  /** What the rewriter's merges and its `required` may not disturb in the dictionary `g`. */
  ghost predicate TopHarmless(kw: Meaning, g: Fields) {
    if Inlines(g) then SilentBeside(kw, g, Ref)
    else if SingleAllOf(g) then SilentBeside(kw, g, AllOf)
    else RequiredWithin(g)
  }

  ghost predicate Harmless(kw: Meaning, n: Json)
    decreases n, 1
  {
    match n
    case Obj(f) => TopHarmless(kw, Drop(f, {Default})) && forall j | 0 <= j < |f| :: FieldHarmless(kw, f[j])
    case Arr(xs) => forall j | 0 <= j < |xs| :: Harmless(kw, xs[j])
    case _ => true
  }

  ghost predicate FieldHarmless(kw: Meaning, x: Field)
    decreases x, 0
  {
    match x.key
    case Items => Harmless(kw, x.value)
    case Properties | Defs | Definitions | AnyOf | OneOf | AllOf => MembersHarmless(kw, x.value)
    case _ => true
  }

  ghost predicate MembersHarmless(kw: Meaning, c: Json)
    decreases c, 0
  {
    match c
    case Obj(f) => forall j | 0 <= j < |f| :: ValueHarmless(kw, f[j])
    case Arr(xs) => forall j | 0 <= j < |xs| :: Harmless(kw, xs[j])
    case _ => true
  }

  ghost predicate ValueHarmless(kw: Meaning, x: Field)
    decreases x, 0
  {
    Harmless(kw, x.value)
  }

  /** No instance satisfies two of the alternatives. */
  ghost predicate Exclusive(kw: Meaning, root: Json, xs: seq<Json>) {
    forall n: nat, i, j, m | 0 <= j < |xs| && 0 <= m < |xs| && j != m ::
      !(Eval(kw, n, root, xs[j], i) && Eval(kw, n, root, xs[m], i))
  }

  predicate KnownRef(keys: set<DefKey>, ref: string) {
    ref == "#" || (Names2(ref).Some? && Names2(ref).value in keys)
  }

  /** Wherever the schema is evaluated, `$ref`s are known and the alternatives of a `oneOf` exclusive. */
  ghost predicate Sound(kw: Meaning, root: Json, keys: set<DefKey>, s: Json)
    decreases s, 1
  {
    s.Obj? ==> forall j | 0 <= j < |s.fields| :: SoundField(kw, root, keys, s.fields[j])
  }

  ghost predicate SoundField(kw: Meaning, root: Json, keys: set<DefKey>, x: Field)
    decreases x, 0
  {
    match x.key
    case Ref => x.value.Str? ==> KnownRef(keys, x.value.s)
    case Items | AdditionalProperties => Sound(kw, root, keys, x.value)
    case Properties | Defs | Definitions => x.value.Obj? ==> SoundValues(kw, root, keys, x.value.fields)
    case AnyOf | AllOf => x.value.Arr? ==> SoundItems(kw, root, keys, x.value.items)
    case OneOf => x.value.Arr? ==> SoundItems(kw, root, keys, x.value.items) && Exclusive(kw, root, x.value.items)
    case _ => true
  }

  ghost predicate SoundValues(kw: Meaning, root: Json, keys: set<DefKey>, f: Fields)
    decreases f, 0
  {
    forall j | 0 <= j < |f| :: SoundValue(kw, root, keys, f[j])
  }

  ghost predicate SoundValue(kw: Meaning, root: Json, keys: set<DefKey>, x: Field)
    decreases x, 0
  {
    Sound(kw, root, keys, x.value)
  }

  ghost predicate SoundItems(kw: Meaning, root: Json, keys: set<DefKey>, xs: seq<Json>)
    decreases xs, 0
  {
    forall j | 0 <= j < |xs| :: Sound(kw, root, keys, xs[j])
  }

  // ---- the setting -------------------------------------------------------------------------

  /** The original schema, the meaning of the other keywords and the certificates. */
  datatype Setting = Setting(kw: Meaning, t: Table, w: Weights, schema: Fields) {
    function Original(): Json { Obj(schema) }
    function Strict(): Json { Pure(t, Obj(schema)) }

    ghost predicate Fit(s: Json) {
      Domain(t, s) && Unique(s) && Harmless(kw, s) && Sound(kw, Original(), t.of.Keys, s)
    }

    /** The place a known `$ref` names, the document itself or a definition, is as it has to be. */
    ghost predicate Ready(place: Option<DefKey>) {
      match place
      case None => Fit(Original()) && Weight(w, Original()) < w.unresolved
      case Some(key) =>
        && key in t.of && key in w.of && Def(Original(), key).Some? && Fit(Def(Original(), key).value)
        && Weight(w, Def(Original(), key).value) <= w.of[key] < w.unresolved
        && Pure(t, Def(Original(), key).value) == Obj(t.of[key])
        && Def(Strict(), key) == Some(Obj(t.of[key]))
    }

    ghost predicate Valid() {
      w.broken == {} && forall place: Option<DefKey> | place.None? || place.value in t.of :: Ready(place)
    }

    /** Bound on nested `$ref`s in the original for `n` of them in the strict schema. */
    function Reach(n: nat): nat { if n == 0 then 0 else Reach(n - 1) + w.unresolved + 1 }
  }

  lemma ReachStep(c: Setting, n: nat)
    requires n > 0
    ensures c.Reach(n) == c.Reach(n - 1) + c.w.unresolved + 1
  {
  }

  lemma HarmlessDef(kw: Meaning, f: Fields, key: DefKey)
    requires Harmless(kw, Obj(f)) && key.0 in {Defs, Definitions} && Def(Obj(f), key).Some?
    ensures Harmless(kw, Def(Obj(f), key).value)
  {
    var i := Index(f, key.0);
    var s := Value(f, key.0);
    assert FieldHarmless(kw, f[i]);
    assert MembersHarmless(kw, s);
    assert ValueHarmless(kw, s.fields[Index(s.fields, key.1)]);
  }

  lemma SoundDef(kw: Meaning, root: Json, keys: set<DefKey>, f: Fields, key: DefKey)
    requires Sound(kw, root, keys, Obj(f)) && key.0 in {Defs, Definitions} && Def(Obj(f), key).Some?
    ensures Sound(kw, root, keys, Def(Obj(f), key).value)
  {
    var i := Index(f, key.0);
    var s := Value(f, key.0);
    assert SoundField(kw, root, keys, f[i]);
    assert SoundValues(kw, root, keys, s.fields);
    assert SoundValue(kw, root, keys, s.fields[Index(s.fields, key.1)]);
  }

  lemma TopKeepsDefs(t: Table, v: Fields, k: Name)
    requires Has(v, k) && k in {Defs, Definitions}
    ensures Get(Top(t, v), k) == Get(v, k)
  {
    DropGet(v, {Ref}, k);
    DropGet(v, {AllOf}, k);
    if Inlines(v) {
      MergeGet(Drop(v, {Ref}), Finished(t, StrRef(v).value), k);
    } else if SingleAllOf(v) && Member(v).Obj? {
      var a, y := Drop(v, {AllOf}), Member(v).fields;
      MergeGet(a, y, k);
      if StrRef(y).Some? { MergeGet(a, Finished(t, StrRef(y).value), k); }
    } else {
      ShapedGet(v, k);
    }
  }

  lemma PureGet(t: Table, g: Fields, k: Name)
    requires Has(g, k)
    ensures Get(PureFields(t, g), k) == Some(PureField(t, Field(k, Value(g, k))).value)
  {
    PureKeys(t, g, k);
    assert PureFields(t, g)[Index(g, k)] == PureField(t, g[Index(g, k)]);
  }

  lemma PureSection(t: Table, s: Fields, k: Name)
    requires Has(s, k)
    ensures Get(PureValues(t, s), k) == Some(Pure(t, Value(s, k)))
  {
    SameKeys(s, PureValues(t, s), k);
    assert PureValues(t, s)[Index(s, k)] == PureValue(t, s[Index(s, k)]);
  }

  /** A section of definitions survives as the section of the finished definitions. */
  lemma StrictSection(t: Table, f: Fields, k: Name, s: Fields)
    requires k in {Defs, Definitions} && Get(f, k) == Some(Obj(s))
    ensures Get(Pure(t, Obj(f)).fields, k) == Some(Obj(PureValues(t, s)))
  {
    var g := Drop(f, {Default});
    DropGet(f, {Default}, k);
    SectionPure(t, g, k, s);
    TopKeepsDefs(t, PureFields(t, g), k);
    PureTop(t, f);
  }

  lemma SectionPure(t: Table, g: Fields, k: Name, s: Fields)
    requires k in {Defs, Definitions} && Get(g, k) == Some(Obj(s))
    ensures Get(PureFields(t, g), k) == Some(Obj(PureValues(t, s)))
  {
    PureGet(t, g, k);
    assert PureField(t, Field(k, Obj(s))) == Field(k, PureMembers(t, Obj(s)));
  }

  /** The strict document holds the finished definitions. */
  lemma StrictDef(t: Table, f: Fields, key: DefKey)
    requires key.0 in {Defs, Definitions} && Def(Obj(f), key).Some?
    ensures Def(Pure(t, Obj(f)), key) == Some(Pure(t, Def(Obj(f), key).value))
  {
    var s := Value(f, key.0).fields;
    StrictSection(t, f, key.0, s);
    PureSection(t, s, key.1);
    DefUnder(Pure(t, Obj(f)).fields, key, PureValues(t, s));
  }

  lemma DefUnder(r: Fields, key: DefKey, s: Fields)
    requires Get(r, key.0) == Some(Obj(s))
    ensures Def(Obj(r), key) == Get(s, key.1)
  {
  }

  lemma DefReady(c: Setting, key: DefKey)
    requires Matching(c.t, c.w) && RootSolved(c.t, c.w, c.schema) && key in c.t.of
    requires Harmless(c.kw, c.Original()) && Sound(c.kw, c.Original(), c.t.of.Keys, c.Original())
    ensures c.Ready(Some(key))
  {
    assert Solved(c.t, c.Original(), key) && Good(c.w, c.Original(), key);
    HarmlessDef(c.kw, c.schema, key);
    SoundDef(c.kw, c.Original(), c.t.of.Keys, c.schema, key);
    StrictDef(c.t, c.schema, key);
  }

  lemma SettingValid(c: Setting)
    requires Matching(c.t, c.w) && RootSolved(c.t, c.w, c.schema) && c.Fit(c.Original())
    ensures c.Valid()
  {
    forall place: Option<DefKey> | place.None? || place.value in c.t.of ensures c.Ready(place) {
      if place.Some? { DefReady(c, place.value); }
    }
  }

  lemma TargetOfDef(root: Json, ref: string)
    requires ref != "#" && Names2(ref).Some? && Def(root, Names2(ref).value).Some?
    ensures Target(root, ref) == Def(root, Names2(ref).value)
  {
    var ks := Split(ref[2..], '/');
    var key := Names2(ref).value;
    var d := Def(root, key).value;
    assert ks[1..][1..] == [];
    assert Walk(d, []) == Ok(d);
    assert Walk(Value(root.fields, key.0), ks[1..]) == Ok(d);
  }

  // ---- evaluating merged dictionaries ------------------------------------------------------

  lemma EvalField(kw: Meaning, n: nat, root: Json, f: Fields, i: Json, x: Field)
    requires Eval(kw, n, root, Obj(f), i) && x in f
    ensures Check(kw, n, root, PropertyNames(f), x, i)
  {
    var j :| 0 <= j < |f| && f[j] == x;
    assert Check(kw, n, root, PropertyNames(f), f[j], i);
  }

  /** Silent fields neither add to a dictionary nor hide anything of it. */
  lemma MergeEval(kw: Meaning, n: nat, root: Json, a: Fields, e: Fields, i: Json)
    requires forall j | 0 <= j < |a| :: Silent(kw, a[j].key)
    requires Eval(kw, n, root, Obj(Merge(a, e)), i)
    ensures Eval(kw, n, root, Obj(e), i)
  {
    var m := Merge(a, e);
    SilentGet(kw, a, e);
    forall j | 0 <= j < |e| ensures Check(kw, n, root, PropertyNames(e), e[j], i) {
      if e[j].key in KeySet(a) {
        assert Silent(kw, e[j].key);
      } else {
        DropKeeps(e, KeySet(a), j);
        EvalField(kw, n, root, m, i, e[j]);
      }
    }
  }

  lemma SilentGet(kw: Meaning, a: Fields, e: Fields)
    requires forall j | 0 <= j < |a| :: Silent(kw, a[j].key)
    ensures PropertyNames(Merge(a, e)) == PropertyNames(e)
  {
    MergeGet(a, e, Properties);
    HasIff(a, Properties);
  }

  lemma {:induction false} DropKeeps(f: Fields, ks: set<Name>, j: nat)
    requires j < |f| && f[j].key !in ks
    ensures f[j] in Drop(f, ks)
  {
    if j > 0 { DropKeeps(f[1..], ks, j - 1); }
  }

  lemma SilentRest(kw: Meaning, t: Table, g: Fields, k: Name)
    requires SilentBeside(kw, g, k)
    ensures var a := Drop(PureFields(t, g), {k}); forall j | 0 <= j < |a| :: Silent(kw, a[j].key)
  {
    PureDrop(t, g, {k});
    var b := Drop(g, {k});
    var a := PureFields(t, b);
    forall j | 0 <= j < |a| ensures Silent(kw, a[j].key) {
      DropMember(g, {k}, j);
      assert a[j] == PureField(t, b[j]);
    }
  }

  // ---- refinement --------------------------------------------------------------------------

  /** What a known `$ref` names before and after. */
  lemma PlaceOfRef(c: Setting, ref: string) returns (d: Json)
    requires c.Valid() && KnownRef(c.t.of.Keys, ref)
    ensures Target(c.Original(), ref) == Some(d) && Target(c.Strict(), ref) == Some(Pure(c.t, d))
    ensures c.Fit(d) && Weight(c.w, d) < c.w.unresolved
  {
    if ref == "#" {
      assert c.Ready(None);
      d := c.Original();
    } else {
      d := PlaceOfDef(c, ref);
    }
  }

  lemma PlaceOfDef(c: Setting, ref: string) returns (d: Json)
    requires c.Valid() && ref != "#" && Names2(ref).Some? && Names2(ref).value in c.t.of
    ensures Target(c.Original(), ref) == Some(d) && Target(c.Strict(), ref) == Some(Pure(c.t, d))
    ensures c.Fit(d) && Pure(c.t, d) == Obj(Finished(c.t, ref))
    ensures Names2(ref).value in c.w.of && Weight(c.w, d) <= c.w.of[Names2(ref).value] < c.w.unresolved
  {
    var key := Names2(ref).value;
    assert c.Ready(Some(key));
    d := Def(c.Original(), key).value;
    TargetOfDef(c.Strict(), ref);
    TargetOfDef(c.Original(), ref);
  }

  /** What is accepted tightly is accepted, with any larger bound. */
  lemma {:induction false} TightAccepts(c: Setting, n: nat, m: nat, v: bool, s: Json, i: Json)
    requires c.Valid() && Sound(c.kw, c.Original(), c.t.of.Keys, s) && m >= n
    requires Tight(c.kw, n, c.Original(), v, s, i)
    ensures Eval(c.kw, m, c.Original(), s, i)
    decreases n, s, 1
  {
    if s.Obj? {
      var f := s.fields;
      forall j | 0 <= j < |f| ensures Check(c.kw, m, c.Original(), PropertyNames(f), f[j], i) {
        assert SoundField(c.kw, c.Original(), c.t.of.Keys, f[j]);
        assert TightField(c.kw, n, c.Original(), v, PropertyNames(f), f[j], i);
        TightFieldAccepts(c, n, m, v, PropertyNames(f), f[j], i);
      }
    }
  }

  lemma {:induction false} TightFieldAccepts(c: Setting, n: nat, m: nat, v: bool, props: set<Name>, x: Field, i: Json)
    requires c.Valid() && SoundField(c.kw, c.Original(), c.t.of.Keys, x) && m >= n
    requires TightField(c.kw, n, c.Original(), v, props, x, i)
    ensures Check(c.kw, m, c.Original(), props, x, i)
    decreases n, x, 2
  {
    if x.key == Ref {
      TightRefField(c, n, m, v, props, x, i);
    } else if x.key in {AnyOf, OneOf, AllOf} {
      TightCombined(c, n, m, v, props, x, i);
    } else {
      TightOther(c, n, m, v, props, x, i);
    }
  }

  lemma {:induction false} TightRefField(c: Setting, n: nat, m: nat, v: bool, props: set<Name>, x: Field, i: Json)
    requires c.Valid() && SoundField(c.kw, c.Original(), c.t.of.Keys, x) && m >= n
    requires TightField(c.kw, n, c.Original(), v, props, x, i)
    requires x.key == Ref
    ensures Check(c.kw, m, c.Original(), props, x, i)
    decreases n, x, 1
  {
    if x.value.Str? {
      var k, l := RefPays(c.kw, n, m, c.Original(), v, props, x, i);
      TightRefAccepts(c, k, l, x.value.s, i);
      RefChecks(c.kw, m, l, c.Original(), props, x, i);
    }
  }

  /** Following a `$ref` costs one of the bound. */
  lemma RefPays(kw: Meaning, n: nat, m: nat, root: Json, v: bool, props: set<Name>, x: Field, i: Json)
      returns (k: nat, l: nat)
    requires TightField(kw, n, root, v, props, x, i) && x.key == Ref && x.value.Str? && m >= n
    ensures k + 1 == n && l + 1 == m
    ensures Target(root, x.value.s).Some? && Tight(kw, k, root, true, Target(root, x.value.s).value, i)
  {
    k, l := n - 1, m - 1;
  }

  lemma RefChecks(kw: Meaning, m: nat, l: nat, root: Json, props: set<Name>, x: Field, i: Json)
    requires l + 1 == m && x.key == Ref && x.value.Str?
    requires Target(root, x.value.s).Some? && Eval(kw, l, root, Target(root, x.value.s).value, i)
    ensures Check(kw, m, root, props, x, i)
  {
  }

  lemma {:induction false} TightCombined(c: Setting, n: nat, m: nat, v: bool, props: set<Name>, x: Field, i: Json)
    requires c.Valid() && SoundField(c.kw, c.Original(), c.t.of.Keys, x) && m >= n
    requires TightField(c.kw, n, c.Original(), v, props, x, i)
    requires x.key in {AnyOf, OneOf, AllOf}
    ensures Check(c.kw, m, c.Original(), props, x, i)
    decreases n, x, 0
  {
    match x.key
    case AnyOf => if x.value.Arr? { TightAnyAccepts(c, n, m, v, x.value.items, i); }
    case OneOf => if x.value.Arr? { TightOneAccepts(c, n, m, v, x.value.items, i); }
    case AllOf => if x.value.Arr? { TightAllAccept(c, n, m, v, x.value.items, i); }
    case _ =>
  }

  lemma {:induction false} TightOther(c: Setting, n: nat, m: nat, v: bool, props: set<Name>, x: Field, i: Json)
    requires c.Valid() && SoundField(c.kw, c.Original(), c.t.of.Keys, x) && m >= n
    requires TightField(c.kw, n, c.Original(), v, props, x, i)
    requires x.key !in {Ref, AnyOf, OneOf, AllOf}
    ensures Check(c.kw, m, c.Original(), props, x, i)
    decreases n, x, 0
  {
    match x.key
    case Items => if i.Arr? { TightItemsAccept(c, n, m, v, x.value, i.items); }
    case AdditionalProperties => if i.Obj? { TightOthersAccept(c, n, m, props, x.value, i.fields); }
    case Properties => if x.value.Obj? && i.Obj? { TightPropertiesAccept(c, n, m, v, x.value.fields, i.fields); }
    case _ =>
  }

  lemma {:induction false} TightItemsAccept(c: Setting, n: nat, m: nat, v: bool, s: Json, vs: seq<Json>)
    requires c.Valid() && Sound(c.kw, c.Original(), c.t.of.Keys, s) && m >= n
    requires forall j | 0 <= j < |vs| :: Tight(c.kw, n, c.Original(), v, s, vs[j])
    ensures forall j | 0 <= j < |vs| :: Eval(c.kw, m, c.Original(), s, vs[j])
    decreases n, s, 2
  {
    forall j | 0 <= j < |vs| ensures Eval(c.kw, m, c.Original(), s, vs[j]) { TightAccepts(c, n, m, v, s, vs[j]); }
  }

  lemma {:induction false} TightOthersAccept(c: Setting, n: nat, m: nat, props: set<Name>, s: Json, vs: Fields)
    requires c.Valid() && Sound(c.kw, c.Original(), c.t.of.Keys, s) && m >= n
    requires forall j | 0 <= j < |vs| :: vs[j].key in props || Tight(c.kw, n, c.Original(), false, s, vs[j].value)
    ensures forall j | 0 <= j < |vs| :: vs[j].key in props || Eval(c.kw, m, c.Original(), s, vs[j].value)
    decreases n, s, 2
  {
    forall j | 0 <= j < |vs| && vs[j].key !in props ensures Eval(c.kw, m, c.Original(), s, vs[j].value) {
      TightAccepts(c, n, m, false, s, vs[j].value);
    }
  }

  lemma {:induction false} TightAnyAccepts(c: Setting, n: nat, m: nat, v: bool, xs: seq<Json>, i: Json)
    requires c.Valid() && SoundItems(c.kw, c.Original(), c.t.of.Keys, xs) && m >= n
    requires exists j | 0 <= j < |xs| :: Tight(c.kw, n, c.Original(), v, xs[j], i)
    ensures exists j | 0 <= j < |xs| :: Eval(c.kw, m, c.Original(), xs[j], i)
    decreases n, xs, 0
  {
    var j :| 0 <= j < |xs| && Tight(c.kw, n, c.Original(), v, xs[j], i);
    TightAccepts(c, n, m, v, xs[j], i);
  }

  lemma {:induction false} TightOneAccepts(c: Setting, n: nat, m: nat, v: bool, xs: seq<Json>, i: Json)
    requires c.Valid() && SoundItems(c.kw, c.Original(), c.t.of.Keys, xs) && m >= n
    requires Exclusive(c.kw, c.Original(), xs) && TightOne(c.kw, n, c.Original(), v, xs, i)
    ensures ExactlyOne(c.kw, m, c.Original(), xs, i)
    decreases n, xs, 0
  {
    var j :| 0 <= j < |xs| && Tight(c.kw, n, c.Original(), v, xs[j], i);
    TightAccepts(c, n, m, v, xs[j], i);
    OnlyOne(c, m, xs, j, i);
  }

  lemma {:induction false} TightAllAccept(c: Setting, n: nat, m: nat, v: bool, xs: seq<Json>, i: Json)
    requires c.Valid() && SoundItems(c.kw, c.Original(), c.t.of.Keys, xs) && m >= n
    requires forall j | 0 <= j < |xs| :: Tight(c.kw, n, c.Original(), v, xs[j], i)
    ensures forall j | 0 <= j < |xs| :: Eval(c.kw, m, c.Original(), xs[j], i)
    decreases n, xs, 0
  {
    forall j | 0 <= j < |xs| ensures Eval(c.kw, m, c.Original(), xs[j], i) { TightAccepts(c, n, m, v, xs[j], i); }
  }

  lemma {:induction false} TightRefAccepts(c: Setting, n: nat, m: nat, ref: string, i: Json)
    requires c.Valid() && KnownRef(c.t.of.Keys, ref) && m >= n && Target(c.Original(), ref).Some?
    requires Tight(c.kw, n, c.Original(), true, Target(c.Original(), ref).value, i)
    ensures Eval(c.kw, m, c.Original(), Target(c.Original(), ref).value, i)
    decreases n, Target(c.Original(), ref).value, 2
  {
    var d := PlaceOfRef(c, ref);
    TightAccepts(c, n, m, true, d, i);
  }

  lemma {:induction false} TightPropertiesAccept(c: Setting, n: nat, m: nat, v: bool, ps: Fields, vs: Fields)
    requires c.Valid() && SoundValues(c.kw, c.Original(), c.t.of.Keys, ps) && m >= n
    requires TightProperties(c.kw, n, c.Original(), v, ps, vs)
    ensures CheckProperties(c.kw, m, c.Original(), ps, vs)
    decreases n, ps, 0
  {
    forall j | 0 <= j < |ps| ensures CheckProperty(c.kw, m, c.Original(), ps[j], vs) {
      assert TightProperty(c.kw, n, c.Original(), v, ps[j], vs) && SoundValue(c.kw, c.Original(), c.t.of.Keys, ps[j]);
      TightPropertyAccepts(c, n, m, v, ps[j], vs);
    }
  }

  lemma {:induction false} TightPropertyAccepts(c: Setting, n: nat, m: nat, v: bool, x: Field, vs: Fields)
    requires c.Valid() && SoundValue(c.kw, c.Original(), c.t.of.Keys, x) && m >= n
    requires TightProperty(c.kw, n, c.Original(), v, x, vs)
    ensures CheckProperty(c.kw, m, c.Original(), x, vs)
    decreases n, x, 0
  {
    if Has(vs, x.key) { TightAccepts(c, n, m, v, x.value, Value(vs, x.key)); }
  }

  lemma OnlyOne(c: Setting, m: nat, xs: seq<Json>, j: nat, i: Json)
    requires Exclusive(c.kw, c.Original(), xs) && j < |xs| && Eval(c.kw, m, c.Original(), xs[j], i)
    ensures ExactlyOne(c.kw, m, c.Original(), xs, i)
  {
  }

  /** An alternative that is accepted tightly is the only one accepted. */
  lemma OnlyTight(c: Setting, m: nat, v: bool, xs: seq<Json>, j: nat, i: Json)
    requires c.Valid() && Exclusive(c.kw, c.Original(), xs) && j < |xs|
    requires Sound(c.kw, c.Original(), c.t.of.Keys, xs[j]) && Tight(c.kw, m, c.Original(), v, xs[j], i)
    ensures TightOne(c.kw, m, c.Original(), v, xs, i)
  {
    TightAccepts(c, m, m, v, xs[j], i);
  }

  /** Following a known `$ref` in the original, given that it can be followed in the strict schema. */
  lemma {:induction false} RefRefines(c: Setting, n: nat, m: nat, ref: string, i: Json)
    requires c.Valid() && KnownRef(c.t.of.Keys, ref) && n > 0 && m >= c.Reach(n)
    requires Target(c.Strict(), ref).Some? && Eval(c.kw, n - 1, c.Strict(), Target(c.Strict(), ref).value, i)
    ensures m > 0 && Target(c.Original(), ref).Some?
    ensures Tight(c.kw, m - 1, c.Original(), true, Target(c.Original(), ref).value, i)
    decreases n, 0, Null
  {
    ReachStep(c, n);
    var d := PlaceOfRef(c, ref);
    Refines(c, n - 1, m - 1, d, i);
  }

  /** Schemas that are not rewritten, such as those under `additionalProperties`. */
  lemma {:induction false} RawRefines(c: Setting, n: nat, m: nat, s: Json, i: Json)
    requires c.Valid() && Sound(c.kw, c.Original(), c.t.of.Keys, s) && m >= c.Reach(n)
    requires Eval(c.kw, n, c.Strict(), s, i)
    ensures Tight(c.kw, m, c.Original(), false, s, i)
    decreases n, 1, s, 1
  {
    if s.Obj? {
      var f := s.fields;
      forall j | 0 <= j < |f| ensures TightField(c.kw, m, c.Original(), false, PropertyNames(f), f[j], i) {
        EvalField(c.kw, n, c.Strict(), f, i, f[j]);
        assert SoundField(c.kw, c.Original(), c.t.of.Keys, f[j]);
        RawFieldRefines(c, n, m, PropertyNames(f), f[j], i);
      }
    }
  }

  lemma {:induction false} RawFieldRefines(c: Setting, n: nat, m: nat, props: set<Name>, x: Field, i: Json)
    requires c.Valid() && SoundField(c.kw, c.Original(), c.t.of.Keys, x) && m >= c.Reach(n)
    requires Check(c.kw, n, c.Strict(), props, x, i)
    ensures TightField(c.kw, m, c.Original(), false, props, x, i)
    decreases n, 1, x, 0
  {
    match x.key
    case Ref => if x.value.Str? { RefRefines(c, n, m, x.value.s, i); }
    case Items => if i.Arr? { RawItemsRefine(c, n, m, x.value, i.items); }
    case AdditionalProperties => if i.Obj? { RawRestRefines(c, n, m, props, x.value, i.fields); }
    case Properties => if x.value.Obj? && i.Obj? { RawPropertiesRefine(c, n, m, x.value.fields, i.fields); }
    case AnyOf =>
      if x.value.Arr? {
        var j :| 0 <= j < |x.value.items| && Eval(c.kw, n, c.Strict(), x.value.items[j], i);
        RawRefines(c, n, m, x.value.items[j], i);
      }
    case OneOf =>
      if x.value.Arr? {
        var xs := x.value.items;
        var j :| 0 <= j < |xs| && Eval(c.kw, n, c.Strict(), xs[j], i);
        RawRefines(c, n, m, xs[j], i);
        OnlyTight(c, m, false, xs, j, i);
      }
    case AllOf =>
      if x.value.Arr? {
        var xs := x.value.items;
        forall j | 0 <= j < |xs| ensures Tight(c.kw, m, c.Original(), false, xs[j], i) {
          RawRefines(c, n, m, xs[j], i);
        }
      }
    case _ =>
  }

  lemma {:induction false} RawItemsRefine(c: Setting, n: nat, m: nat, s: Json, vs: seq<Json>)
    requires c.Valid() && Sound(c.kw, c.Original(), c.t.of.Keys, s) && m >= c.Reach(n)
    requires forall j | 0 <= j < |vs| :: Eval(c.kw, n, c.Strict(), s, vs[j])
    ensures forall j | 0 <= j < |vs| :: Tight(c.kw, m, c.Original(), false, s, vs[j])
    decreases n, 1, s, 2
  {
    forall j | 0 <= j < |vs| ensures Tight(c.kw, m, c.Original(), false, s, vs[j]) { RawRefines(c, n, m, s, vs[j]); }
  }

  lemma {:induction false} RawRestRefines(c: Setting, n: nat, m: nat, props: set<Name>, s: Json, vs: Fields)
    requires c.Valid() && Sound(c.kw, c.Original(), c.t.of.Keys, s) && m >= c.Reach(n)
    requires forall j | 0 <= j < |vs| :: vs[j].key in props || Eval(c.kw, n, c.Strict(), s, vs[j].value)
    ensures forall j | 0 <= j < |vs| :: vs[j].key in props || Tight(c.kw, m, c.Original(), false, s, vs[j].value)
    decreases n, 1, s, 2
  {
    forall j | 0 <= j < |vs| && vs[j].key !in props ensures Tight(c.kw, m, c.Original(), false, s, vs[j].value) {
      RawRefines(c, n, m, s, vs[j].value);
    }
  }

  lemma {:induction false} RawPropertiesRefine(c: Setting, n: nat, m: nat, ps: Fields, vs: Fields)
    requires c.Valid() && SoundValues(c.kw, c.Original(), c.t.of.Keys, ps) && m >= c.Reach(n)
    requires CheckProperties(c.kw, n, c.Strict(), ps, vs)
    ensures TightProperties(c.kw, m, c.Original(), false, ps, vs)
    decreases n, 1, ps, 2
  {
    forall j | 0 <= j < |ps| ensures TightProperty(c.kw, m, c.Original(), false, ps[j], vs) {
      assert CheckProperty(c.kw, n, c.Strict(), ps[j], vs) && SoundValue(c.kw, c.Original(), c.t.of.Keys, ps[j]);
      RawPropertyRefines(c, n, m, ps[j], vs);
    }
  }

  lemma {:induction false} RawPropertyRefines(c: Setting, n: nat, m: nat, x: Field, vs: Fields)
    requires c.Valid() && SoundValue(c.kw, c.Original(), c.t.of.Keys, x) && m >= c.Reach(n)
    requires CheckProperty(c.kw, n, c.Strict(), x, vs)
    ensures TightProperty(c.kw, m, c.Original(), false, x, vs)
    decreases n, 1, x, 0
  {
    if Has(vs, x.key) { RawRefines(c, n, m, x.value, Value(vs, x.key)); }
  }

  /**
   A rewritten subschema accepts only what the original one accepts with all properties and no others, provided that
   the original may follow enough `$ref`s: those that were inlined cost their weight.
   */
  lemma {:induction false} Refines(c: Setting, n: nat, m: nat, s: Json, i: Json)
    requires c.Valid() && c.Fit(s) && m >= c.Reach(n) + Weight(c.w, s)
    requires Eval(c.kw, n, c.Strict(), Pure(c.t, s), i)
    ensures Tight(c.kw, m, c.Original(), true, s, i)
    decreases n, 2, Weight(c.w, s), 3
  {
    if s.Obj? {
      var f := s.fields;
      var g := Drop(f, {Default});
      StrRefDropped(f);
      if Inlines(g) {
        InlinedRefines(c, n, m, f, i);
      } else if SingleAllOf(g) {
        CollapsedRefines(c, n, m, f, i);
      } else {
        PlainRefines(c, n, m, f, i);
      }
    }
  }

  /** A dictionary, seen through silent fields it was merged with. */
  lemma {:induction false} CopiedRefines(c: Setting, n: nat, m: nat, a: Fields, d: Json, i: Json)
    requires c.Valid() && c.Fit(d) && d.Obj? && m >= c.Reach(n) + Weight(c.w, d)
    requires forall j | 0 <= j < |a| :: Silent(c.kw, a[j].key)
    requires Eval(c.kw, n, c.Strict(), Obj(Merge(a, Pure(c.t, d).fields)), i)
    ensures Tight(c.kw, m, c.Original(), true, d, i)
    decreases n, 2, Weight(c.w, d), 4
  {
    CopiedEval(c, n, a, d, i);
    Refines(c, n, m, d, i);
  }

  lemma CopiedEval(c: Setting, n: nat, a: Fields, d: Json, i: Json)
    requires forall j | 0 <= j < |a| :: Silent(c.kw, a[j].key)
    requires d.Obj? && Eval(c.kw, n, c.Strict(), Obj(Merge(a, Pure(c.t, d).fields)), i)
    ensures Eval(c.kw, n, c.Strict(), Pure(c.t, d), i)
  {
    MergeEval(c.kw, n, c.Strict(), a, Pure(c.t, d).fields, i);
  }

  lemma NotRoot(ref: string)
    requires Names2(ref).Some?
    ensures ref != "#"
  {
    assert |ref| >= 2;
  }

  /** The definition behind a `$ref` that is inlined. */
  lemma InlinableDef(c: Setting, ref: string) returns (d: Json)
    requires c.Valid() && Inlinable(c.t, ref)
    ensures c.Fit(d) && d.Obj? && Pure(c.t, d).fields == Finished(c.t, ref) && Cost(c.w, ref) >= 1 + Weight(c.w, d)
    ensures Target(c.Original(), ref) == Some(d)
  {
    NotRoot(ref);
    d := PlaceOfDef(c, ref);
  }

  lemma {:induction false} InlinedRefines(c: Setting, n: nat, m: nat, f: Fields, i: Json)
    requires c.Valid() && c.Fit(Obj(f)) && m >= c.Reach(n) + Weight(c.w, Obj(f)) && Inlines(Drop(f, {Default}))
    requires Eval(c.kw, n, c.Strict(), Pure(c.t, Obj(f)), i)
    ensures Tight(c.kw, m, c.Original(), true, Obj(f), i)
    decreases n, 2, Weight(c.w, Obj(f)), 2
  {
    var d := InlinedParts(c, f);
    SilentRest(c.kw, c.t, Drop(f, {Default}), Ref);
    RefRestored(c, n, m, Drop(PureFields(c.t, Drop(f, {Default})), {Ref}), f, d, i);
  }

  lemma InlinedParts(c: Setting, f: Fields) returns (d: Json)
    requires c.Valid() && c.Fit(Obj(f)) && Inlines(Drop(f, {Default}))
    ensures c.Fit(d) && d.Obj? && Weight(c.w, Obj(f)) >= 2 + Weight(c.w, d)
    ensures Pure(c.t, Obj(f)) == Obj(Merge(Drop(PureFields(c.t, Drop(f, {Default})), {Ref}), Pure(c.t, d).fields))
    ensures SilentBeside(c.kw, Drop(f, {Default}), Ref) && Distinct(f)
    ensures Has(f, Ref) && Value(f, Ref).Str? && Target(c.Original(), Value(f, Ref).s) == Some(d)
  {
    var g := Drop(f, {Default});
    StrRefDropped(f);
    PureTop(c.t, f);
    PureRef(c.t, g);
    d := InlinableDef(c, StrRef(f).value);
  }

  /** Beside the one keyword that matters, nothing needs checking. */
  /** Silent fields say nothing about properties. */
  lemma SilentWhole(kw: Meaning, f: Fields, k: Name, i: Json)
    requires SilentBeside(kw, Drop(f, {Default}), k) && k in {Ref, AllOf}
    ensures Whole(f, i)
  {
    var g := Drop(f, {Default});
    DropGet(f, {Default}, Properties);
    DropGet(f, {Default}, Type);
    HasIff(g, Properties);
    HasIff(g, Type);
  }

  lemma SilentCheck(c: Setting, m: nat, f: Fields, k: Name, i: Json)
    requires Distinct(f) && SilentBeside(c.kw, Drop(f, {Default}), k) && Has(f, k) && k in {Ref, AllOf}
    requires TightField(c.kw, m, c.Original(), true, PropertyNames(f), Field(k, Value(f, k)), i)
    ensures Tight(c.kw, m, c.Original(), true, Obj(f), i)
  {
    var g := Drop(f, {Default});
    SilentWhole(c.kw, f, k, i);
    forall j | 0 <= j < |f| ensures TightField(c.kw, m, c.Original(), true, PropertyNames(f), f[j], i) {
      if f[j].key != Default {
        DropKeeps(f, {Default}, j);
        var h :| 0 <= h < |g| && g[h] == f[j];
        assert g[h].key == k || Silent(c.kw, g[h].key);
        IndexOfDistinct(f, j);
      }
    }
  }

  lemma {:induction false} CollapsedRefines(c: Setting, n: nat, m: nat, f: Fields, i: Json)
    requires c.Valid() && c.Fit(Obj(f)) && m >= c.Reach(n) + Weight(c.w, Obj(f))
    requires !Inlines(Drop(f, {Default})) && SingleAllOf(Drop(f, {Default}))
    requires Eval(c.kw, n, c.Strict(), Pure(c.t, Obj(f)), i)
    ensures Tight(c.kw, m, c.Original(), true, Obj(f), i)
    decreases n, 2, Weight(c.w, Obj(f)), 2
  {
    CollapsedParts(c, f);
    SilentRest(c.kw, c.t, Drop(f, {Default}), AllOf);
    MemberRefines(c, n, m, f, Drop(PureFields(c.t, Drop(f, {Default})), {AllOf}), i);
    AllOfCheck(c, m, PropertyNames(f), Value(f, AllOf), i);
    SilentCheck(c, m, f, AllOf, i);
  }

  lemma AllOfCheck(c: Setting, m: nat, props: set<Name>, v: Json, i: Json)
    requires v.Arr? && |v.items| == 1 && Tight(c.kw, m, c.Original(), true, v.items[0], i)
    ensures TightField(c.kw, m, c.Original(), true, props, Field(AllOf, v), i)
  {
  }

  lemma CollapsedParts(c: Setting, f: Fields)
    requires c.Valid() && c.Fit(Obj(f)) && !Inlines(Drop(f, {Default})) && SingleAllOf(Drop(f, {Default}))
    ensures SingleAllOf(f) && Member(f).Obj? && !Has(Member(f).fields, AllOf)
    ensures |Drop(f, {Default})| > 1 && StrRef(Member(f).fields).Some? ==>
            Inlinable(c.t, StrRef(Member(f).fields).value)
    ensures Drop(PureFields(c.t, Drop(f, {Default})), {AllOf}) != [] ==> |Drop(f, {Default})| > 1
    ensures SilentBeside(c.kw, Drop(f, {Default}), AllOf) && Distinct(f)
    ensures var y, a := Pure(c.t, Member(f)).fields, Drop(PureFields(c.t, Drop(f, {Default})), {AllOf});
            Pure(c.t, Obj(f)) ==
              Obj(if StrRef(y).Some? && a != [] then Merge(a, Finished(c.t, StrRef(y).value)) else Merge(a, y))
  {
    var g := Drop(f, {Default});
    DropGet(f, {Default}, AllOf);
    PureTop(c.t, f);
    PureRef(c.t, g);
    PureAllOf(c.t, g);
    DropShorter(PureFields(c.t, g), AllOf);
  }

  /** The sole member of an `allOf`, seen through the silent fields beside it. */
  lemma {:induction false} MemberRefines(c: Setting, n: nat, m: nat, f: Fields, a: Fields, i: Json)
    requires c.Valid() && c.Fit(Obj(f)) && m >= c.Reach(n) + Weight(c.w, Obj(f))
    requires SingleAllOf(f) && Member(f).Obj? && !Has(Member(f).fields, AllOf)
    requires a != [] ==> |Drop(f, {Default})| > 1
    requires a != [] && StrRef(Member(f).fields).Some? ==> Inlinable(c.t, StrRef(Member(f).fields).value)
    requires forall j | 0 <= j < |a| :: Silent(c.kw, a[j].key)
    requires var y := Pure(c.t, Member(f)).fields;
             Eval(c.kw, n, c.Strict(),
                  Obj(if StrRef(y).Some? && a != [] then Merge(a, Finished(c.t, StrRef(y).value)) else Merge(a, y)), i)
    ensures Tight(c.kw, m, c.Original(), true, Member(f), i)
    decreases n, 2, Weight(c.w, Obj(f)), 1
  {
    var x := Member(f).fields;
    var y := Pure(c.t, Obj(x)).fields;
    MemberFits(c, f);
    MemberWeight(c.w, f);
    if StrRef(y).Some? && a != [] {
      MemberRef(c.t, x);
      var d := InlinableDef(c, StrRef(x).value);
      BareRef(c.kw, x);
      RefRestored(c, n, m, a, x, d, i);
    } else {
      CopiedRefines(c, n, m, a, Obj(x), i);
    }
  }

  lemma RefCheck(c: Setting, m: nat, f: Fields, d: Json, i: Json)
    requires Distinct(f) && SilentBeside(c.kw, Drop(f, {Default}), Ref)
    requires StrRef(f).Some? && Target(c.Original(), StrRef(f).value) == Some(d)
    requires Tight(c.kw, m, c.Original(), true, d, i)
    ensures Tight(c.kw, m + 1, c.Original(), true, Obj(f), i)
  {
    SilentCheck(c, m + 1, f, Ref, i);
  }

  /** A dictionary whose `$ref` was replaced by the definition it names. */
  lemma {:induction false} RefRestored(c: Setting, n: nat, m: nat, a: Fields, f: Fields, d: Json, i: Json)
    requires c.Valid() && c.Fit(d) && d.Obj? && m >= c.Reach(n) + 1 + Weight(c.w, d)
    requires forall j | 0 <= j < |a| :: Silent(c.kw, a[j].key)
    requires Eval(c.kw, n, c.Strict(), Obj(Merge(a, Pure(c.t, d).fields)), i)
    requires Distinct(f) && SilentBeside(c.kw, Drop(f, {Default}), Ref)
    requires StrRef(f).Some? && Target(c.Original(), StrRef(f).value) == Some(d)
    ensures Tight(c.kw, m, c.Original(), true, Obj(f), i)
    decreases n, 2, Weight(c.w, d), 6
  {
    RestoredBelow(c, n, m - 1, a, f, d, i);
  }

  lemma {:induction false} RestoredBelow(c: Setting, n: nat, m: nat, a: Fields, f: Fields, d: Json, i: Json)
    requires c.Valid() && c.Fit(d) && d.Obj? && m >= c.Reach(n) + Weight(c.w, d)
    requires forall j | 0 <= j < |a| :: Silent(c.kw, a[j].key)
    requires Eval(c.kw, n, c.Strict(), Obj(Merge(a, Pure(c.t, d).fields)), i)
    requires Distinct(f) && SilentBeside(c.kw, Drop(f, {Default}), Ref)
    requires StrRef(f).Some? && Target(c.Original(), StrRef(f).value) == Some(d)
    ensures Tight(c.kw, m + 1, c.Original(), true, Obj(f), i)
    decreases n, 2, Weight(c.w, d), 5
  {
    CopiedRefines(c, n, m, a, d, i);
    RefCheck(c, m, f, d, i);
  }

  lemma BareRef(kw: Meaning, x: Fields)
    requires StrRef(x).Some? && !Inlines(Drop(x, {Default}))
    ensures SilentBeside(kw, Drop(x, {Default}), Ref)
  {
    StrRefDropped(x);
    var g := Drop(x, {Default});
    assert |g| == 1 && g[0].key == Ref;
  }

  lemma MemberWeight(w: Weights, f: Fields)
    requires SingleAllOf(f) && Member(f).Obj?
    ensures Weight(w, Member(f)) < Weight(w, Obj(f))
    ensures |Drop(f, {Default})| > 1 ==> Weight(w, Member(f)) + RefCost(w, Member(f).fields) < Weight(w, Obj(f))
  {
    DropGet(f, {Default}, AllOf);
    var v := Value(f, AllOf);
    FieldBelow(w, f, Index(f, AllOf));
    assert v.items == [Member(f)] && v.items[1..] == [];
    assert ItemsWeight(w, v.items) == Weight(w, Member(f)) + ItemsWeight(w, []);
  }

  ghost predicate FieldFit(c: Setting, x: Field) {
    && FieldDomain(c.t, x) && Unique(x.value) && FieldHarmless(c.kw, x)
    && SoundField(c.kw, c.Original(), c.t.of.Keys, x)
  }

  lemma FitField(c: Setting, f: Fields, j: nat)
    requires c.Fit(Obj(f)) && j < |f|
    ensures FieldFit(c, f[j])
  {
    UniqueChild(Obj(f), j);
    assert FieldsDomain(c.t, f);
    assert FieldDomain(c.t, f[j]);
  }

  lemma ItemsFit(c: Setting, x: Field, j: nat)
    requires FieldFit(c, x) && x.key in {AnyOf, OneOf, AllOf} && x.value.Arr? && j < |x.value.items|
    ensures c.Fit(x.value.items[j])
    ensures Weight(c.w, x.value.items[j]) <= FieldWeight(c.w, x)
  {
    UniqueChild(x.value, j);
    assert Child(x.value, j) == x.value.items[j];
    assert MembersDomain(c.t, x.value) && MembersHarmless(c.kw, x.value);
    assert SoundItems(c.kw, c.Original(), c.t.of.Keys, x.value.items);
    ItemBelow(c.w, x.value.items, j);
  }

  lemma MemberFits(c: Setting, f: Fields)
    requires c.Fit(Obj(f)) && SingleAllOf(f)
    ensures c.Fit(Member(f))
  {
    FitField(c, f, Index(f, AllOf));
    ItemsFit(c, f[Index(f, AllOf)], 0);
  }

  lemma PropertyFits(c: Setting, x: Field, j: nat)
    requires FieldFit(c, x) && x.key == Properties && x.value.Obj? && j < |x.value.fields|
    ensures c.Fit(x.value.fields[j].value)
    ensures Weight(c.w, x.value.fields[j].value) <= FieldWeight(c.w, x)
  {
    var ps := x.value.fields;
    UniqueChild(x.value, j);
    assert Child(x.value, j) == ps[j].value;
    assert MembersDomain(c.t, x.value) && MembersHarmless(c.kw, x.value);
    assert ValueDomain(c.t, ps[j]) && ValueHarmless(c.kw, ps[j]);
    SoundProperty(c.kw, c.Original(), c.t.of.Keys, x, ps, j);
    ValueBelow(c.w, ps, j);
  }

  lemma SoundProperty(kw: Meaning, root: Json, keys: set<DefKey>, x: Field, ps: Fields, j: nat)
    requires SoundField(kw, root, keys, x) && x == Field(Properties, Obj(ps)) && j < |ps|
    ensures Sound(kw, root, keys, ps[j].value)
  {
    assert SoundValues(kw, root, keys, ps);
    assert SoundValue(kw, root, keys, ps[j]);
  }

  /** One rewritten field narrows the original one. */
  lemma {:induction false} FieldRefines(c: Setting, n: nat, m: nat, props: set<Name>, x: Field, y: Field, i: Json)
    requires c.Valid() && FieldFit(c, x) && m >= c.Reach(n) + FieldWeight(c.w, x)
    requires y == PureField(c.t, x) && Check(c.kw, n, c.Strict(), props, y, i)
    ensures TightField(c.kw, m, c.Original(), true, props, x, i)
    decreases n, 2, FieldWeight(c.w, x), 5, 1
  {
    var k := x.key;
    if k == Properties {
      if x.value.Obj? && i.Obj? { PropertiesRefine(c, n, m, x, i.fields); }
    } else if k == Items {
      ItemsRefine(c, n, m, props, x, i);
    } else if k in {AnyOf, OneOf, AllOf} {
      if x.value.Arr? {
        PureCombined(c.t, x);
        CombinedRefines(c, n, m, props, x, PureItems(c.t, x.value.items), i);
      }
    } else if k !in {Default, Defs, Definitions} {
      RawFieldRefines(c, n, m, props, x, i);
      VisitedOrNot(c.kw, m, c.Original(), props, x, i);
    }
  }

  /** For the other keywords it does not matter whether the schema is visited. */
  lemma VisitedOrNot(kw: Meaning, m: nat, root: Json, props: set<Name>, x: Field, i: Json)
    requires x.key !in {Properties, Items, AnyOf, OneOf, AllOf}
    ensures TightField(kw, m, root, false, props, x, i) == TightField(kw, m, root, true, props, x, i)
  {
  }

  lemma PureCombined(t: Table, x: Field)
    requires x.key in {AnyOf, OneOf, AllOf} && x.value.Arr?
    ensures PureField(t, x) == Field(x.key, Arr(PureItems(t, x.value.items)))
  {
  }

  lemma {:induction false} CombinedRefines(
      c: Setting, n: nat, m: nat, props: set<Name>, x: Field, ys: seq<Json>, i: Json)
    requires c.Valid() && FieldFit(c, x) && m >= c.Reach(n) + FieldWeight(c.w, x)
    requires x.key in {AnyOf, OneOf, AllOf} && x.value.Arr? && ys == PureItems(c.t, x.value.items)
    requires Check(c.kw, n, c.Strict(), props, Field(x.key, Arr(ys)), i)
    ensures TightField(c.kw, m, c.Original(), true, props, x, i)
    decreases n, 2, FieldWeight(c.w, x), 5, 0
  {
    if x.key == AnyOf {
      AnyOfRefines(c, n, m, props, x, ys, i);
    } else if x.key == OneOf {
      OneOfRefines(c, n, m, props, x, ys, i);
    } else {
      AllOfRefines(c, n, m, props, x, ys, i);
    }
  }

  lemma {:induction false} ItemsRefine(c: Setting, n: nat, m: nat, props: set<Name>, x: Field, i: Json)
    requires c.Valid() && FieldFit(c, x) && m >= c.Reach(n) + FieldWeight(c.w, x) && x.key == Items
    requires Check(c.kw, n, c.Strict(), props, Field(Items, Pure(c.t, x.value)), i)
    ensures TightField(c.kw, m, c.Original(), true, props, x, i)
    decreases n, 2, FieldWeight(c.w, x), 5, 0
  {
    if i.Arr? {
      forall j | 0 <= j < |i.items| ensures Tight(c.kw, m, c.Original(), true, x.value, i.items[j]) {
        Refines(c, n, m, x.value, i.items[j]);
      }
    }
  }

  lemma {:induction false} PropertiesRefine(c: Setting, n: nat, m: nat, x: Field, vs: Fields)
    requires c.Valid() && FieldFit(c, x) && m >= c.Reach(n) + FieldWeight(c.w, x)
    requires x.key == Properties && x.value.Obj?
    requires CheckProperties(c.kw, n, c.Strict(), PureValues(c.t, x.value.fields), vs)
    ensures TightProperties(c.kw, m, c.Original(), true, x.value.fields, vs)
    decreases n, 2, FieldWeight(c.w, x), 4
  {
    var ps := x.value.fields;
    forall j | 0 <= j < |ps| ensures TightProperty(c.kw, m, c.Original(), true, ps[j], vs) {
      assert CheckProperty(c.kw, n, c.Strict(), PureValues(c.t, ps)[j], vs);
      assert PureValues(c.t, ps)[j] == PureValue(c.t, ps[j]);
      PropertyFits(c, x, j);
      if Has(vs, ps[j].key) { Refines(c, n, m, ps[j].value, Value(vs, ps[j].key)); }
    }
  }

  lemma {:induction false} AnyOfRefines(c: Setting, n: nat, m: nat, props: set<Name>, x: Field, ys: seq<Json>, i: Json)
    requires c.Valid() && FieldFit(c, x) && m >= c.Reach(n) + FieldWeight(c.w, x)
    requires x.key == AnyOf && x.value.Arr? && ys == PureItems(c.t, x.value.items)
    requires Check(c.kw, n, c.Strict(), props, Field(AnyOf, Arr(ys)), i)
    ensures TightField(c.kw, m, c.Original(), true, props, x, i)
    decreases n, 2, FieldWeight(c.w, x), 4
  {
    var j :| 0 <= j < |ys| && Eval(c.kw, n, c.Strict(), ys[j], i);
    ItemsFit(c, x, j);
    Refines(c, n, m, x.value.items[j], i);
  }

  lemma {:induction false} OneOfRefines(c: Setting, n: nat, m: nat, props: set<Name>, x: Field, ys: seq<Json>, i: Json)
    requires c.Valid() && FieldFit(c, x) && m >= c.Reach(n) + FieldWeight(c.w, x)
    requires x.key == OneOf && x.value.Arr? && ys == PureItems(c.t, x.value.items)
    requires Check(c.kw, n, c.Strict(), props, Field(OneOf, Arr(ys)), i)
    ensures TightField(c.kw, m, c.Original(), true, props, x, i)
    decreases n, 2, FieldWeight(c.w, x), 4
  {
    var j :| 0 <= j < |ys| && Eval(c.kw, n, c.Strict(), ys[j], i);
    ItemsFit(c, x, j);
    Refines(c, n, m, x.value.items[j], i);
    OnlyTight(c, m, true, x.value.items, j, i);
  }

  lemma {:induction false} AllOfRefines(c: Setting, n: nat, m: nat, props: set<Name>, x: Field, ys: seq<Json>, i: Json)
    requires c.Valid() && FieldFit(c, x) && m >= c.Reach(n) + FieldWeight(c.w, x)
    requires x.key == AllOf && x.value.Arr? && ys == PureItems(c.t, x.value.items)
    requires Check(c.kw, n, c.Strict(), props, Field(AllOf, Arr(ys)), i)
    ensures TightField(c.kw, m, c.Original(), true, props, x, i)
    decreases n, 2, FieldWeight(c.w, x), 4
  {
    forall j | 0 <= j < |ys| ensures Tight(c.kw, m, c.Original(), true, x.value.items[j], i) {
      assert Eval(c.kw, n, c.Strict(), ys[j], i);
      ItemsFit(c, x, j);
      Refines(c, n, m, x.value.items[j], i);
    }
  }

  // ---- a dictionary that is neither inlined nor collapsed ----------------------------------

  lemma {:induction false} PlainRefines(c: Setting, n: nat, m: nat, f: Fields, i: Json)
    requires c.Valid() && c.Fit(Obj(f)) && m >= c.Reach(n) + Weight(c.w, Obj(f))
    requires !Inlines(Drop(f, {Default})) && !SingleAllOf(Drop(f, {Default}))
    requires Eval(c.kw, n, c.Strict(), Pure(c.t, Obj(f)), i)
    ensures Tight(c.kw, m, c.Original(), true, Obj(f), i)
    decreases n, 2, Weight(c.w, Obj(f)), 2
  {
    var g := Drop(f, {Default});
    var v := PureFields(c.t, g);
    PureTop(c.t, f);
    PureRef(c.t, g);
    PureNotSingle(c.t, g);
    PlainProps(c.t, f);
    PlainWhole(c, n, f, i);
    forall j | 0 <= j < |f| ensures TightField(c.kw, m, c.Original(), true, PropertyNames(f), f[j], i) {
      if f[j].key != Default {
        DropKeeps(f, {Default}, j);
        PlainFieldRefines(c, n, m, f, f[j], j, i);
      }
    }
  }

  /** Strict objects have all properties and no others. */
  lemma PlainWhole(c: Setting, n: nat, f: Fields, i: Json)
    requires var s := Shaped(PureFields(c.t, Drop(f, {Default})));
             PropertyNames(s) == PropertyNames(f) && Eval(c.kw, n, c.Strict(), Obj(s), i)
    ensures Whole(f, i)
  {
    var g := Drop(f, {Default});
    var v := PureFields(c.t, g);
    DropGet(f, {Default}, Properties);
    if i.Obj? {
      if Has(f, Properties) && Value(f, Properties).Obj? { AllRequired(c, n, g, i); }
      SameObjects(c.t, f);
      if DescribesObjects(f) && !Has(f, AdditionalProperties) { NoOthers(c, n, v, i); }
    }
  }

  lemma AllRequired(c: Setting, n: nat, g: Fields, i: Json)
    requires Has(g, Properties) && Value(g, Properties).Obj? && i.Obj?
    requires Eval(c.kw, n, c.Strict(), Obj(Shaped(PureFields(c.t, g))), i)
    ensures forall j | 0 <= j < |Value(g, Properties).fields| ::
              Has(i.fields, Parse(Spell(Value(g, Properties).fields[j].key)))
  {
    var ps := Value(g, Properties).fields;
    var y := StrictRequired(c.t, g);
    EvalField(c.kw, n, c.Strict(), Shaped(PureFields(c.t, g)), i, y);
    forall j | 0 <= j < |ps| ensures Has(i.fields, Parse(Spell(ps[j].key))) {
      assert y.value.items[j] == Str(Spell(ps[j].key));
    }
  }

  /** What stands under `required` in the strict schema. */
  lemma StrictRequired(t: Table, g: Fields) returns (y: Field)
    requires Has(g, Properties) && Value(g, Properties).Obj?
    ensures y == Field(Required, Arr(Names(Value(g, Properties).fields))) && y in Shaped(PureFields(t, g))
  {
    var v := PureFields(t, g);
    var ps := Value(g, Properties).fields;
    PropsPure(t, g);
    ShapedDefaults(v);
    assert Names(PureValues(t, ps)) == Names(ps);
    y := Field(Required, Arr(Names(ps)));
    PutGet(SetDefaults(v), Required, y.value, Required);
    assert Shaped(v)[Index(Shaped(v), Required)] == y;
  }

  /** Whether a dictionary describes objects does not change. */
  lemma SameObjects(t: Table, f: Fields)
    ensures var v := PureFields(t, Drop(f, {Default}));
            DescribesObjects(v) == DescribesObjects(f) && Has(v, AdditionalProperties) == Has(f, AdditionalProperties)
  {
    var g := Drop(f, {Default});
    DropGet(f, {Default}, Properties);
    DropGet(f, {Default}, Type);
    DropGet(f, {Default}, AdditionalProperties);
    PureKeys(t, g, Properties);
    PureKeys(t, g, Type);
    PureKeys(t, g, AdditionalProperties);
    if Has(g, Type) { PureGet(t, g, Type); }
  }

  lemma NoOthers(c: Setting, n: nat, v: Fields, i: Json)
    requires DescribesObjects(v) && !Has(v, AdditionalProperties) && i.Obj?
    requires Eval(c.kw, n, c.Strict(), Obj(Shaped(v)), i)
    ensures forall j | 0 <= j < |i.fields| :: i.fields[j].key in PropertyNames(Shaped(v))
  {
    var x := Field(AdditionalProperties, Bool(false));
    ShapedHas(v);
    EvalField(c.kw, n, c.Strict(), Shaped(v), i, x);
    forall j | 0 <= j < |i.fields| ensures i.fields[j].key in PropertyNames(Shaped(v)) {
      assert !Eval(c.kw, n, c.Strict(), x.value, i.fields[j].value);
    }
  }

  lemma ShapedHas(v: Fields)
    requires DescribesObjects(v) && !Has(v, AdditionalProperties)
    ensures Field(AdditionalProperties, Bool(false)) in Shaped(v)
  {
    var d := SetDefaults(v);
    var x := Field(AdditionalProperties, Bool(false));
    assert d == v + [x] && d[|v|] == x;
    if Has(d, Properties) && Value(d, Properties).Obj? { assert Shaped(v)[|v|] == x; }
  }

  lemma PlainProps(t: Table, f: Fields)
    ensures PropertyNames(Shaped(PureFields(t, Drop(f, {Default})))) == PropertyNames(f)
  {
    var g := Drop(f, {Default});
    var v := PureFields(t, g);
    DropGet(f, {Default}, Properties);
    ShapedGet(v, Properties);
    PropsPure(t, g);
    if Has(f, Properties) && Value(f, Properties).Obj? { SameKeySet(t, Value(f, Properties).fields); }
  }

  lemma SameKeySet(t: Table, ps: Fields)
    ensures KeySet(PureValues(t, ps)) == KeySet(ps)
  {
    forall k ensures k in KeySet(PureValues(t, ps)) <==> k in KeySet(ps) {
      SameKeys(ps, PureValues(t, ps), k);
      HasIff(ps, k);
      HasIff(PureValues(t, ps), k);
    }
  }

  /** The `properties` of a rewritten dictionary. */
  lemma PropsPure(t: Table, g: Fields)
    ensures Has(PureFields(t, g), Properties) == Has(g, Properties)
    ensures Has(g, Properties) ==>
              Value(PureFields(t, g), Properties) ==
              if Value(g, Properties).Obj? then Obj(PureValues(t, Value(g, Properties).fields))
              else Value(g, Properties)
  {
    PureKeys(t, g, Properties);
    if Has(g, Properties) { PureGet(t, g, Properties); }
  }

  lemma {:induction false} PlainFieldRefines(c: Setting, n: nat, m: nat, f: Fields, x: Field, j: nat, i: Json)
    requires c.Valid() && c.Fit(Obj(f)) && m >= c.Reach(n) + Weight(c.w, Obj(f))
    requires j < |f| && f[j] == x && x in Drop(f, {Default})
    requires RequiredWithin(Drop(f, {Default}))
    requires var s := Shaped(PureFields(c.t, Drop(f, {Default})));
             PropertyNames(s) == PropertyNames(f) && Eval(c.kw, n, c.Strict(), Obj(s), i)
    ensures TightField(c.kw, m, c.Original(), true, PropertyNames(f), x, i)
    decreases n, 2, Weight(c.w, Obj(f)), 1
  {
    var g := Drop(f, {Default});
    var v := PureFields(c.t, g);
    var h :| 0 <= h < |g| && g[h] == x;
    assert v[h] == PureField(c.t, x);
    FitField(c, f, j);
    FieldBelow(c.w, f, j);
    if x.key == Required && Has(g, Properties) && Value(g, Properties).Obj? {
      RequiredRefines(c, n, m, g, h, PropertyNames(f), i);
    } else {
      PropsPure(c.t, g);
      ShapedKeeps(v, h);
      EvalField(c.kw, n, c.Strict(), Shaped(v), i, v[h]);
      FieldRefines(c, n, m, PropertyNames(f), x, v[h], i);
    }
  }

  /** Only a `required` beside a dictionary of `properties` is replaced. */
  lemma ShapedKeeps(v: Fields, h: nat)
    requires h < |v| && (v[h].key == Required ==> !(Has(v, Properties) && Value(v, Properties).Obj?))
    ensures v[h] in Shaped(v)
  {
    var d := SetDefaults(v);
    assert d[h] == v[h];
    ShapedDefaults(v);
    if Has(d, Properties) && Value(d, Properties).Obj? {
      assert Shaped(v)[h] == v[h];
    } else {
      assert Shaped(v) == d;
    }
  }

  lemma ShapedDefaults(v: Fields)
    ensures Get(SetDefaults(v), Properties) == Get(v, Properties)
  {
    IndexAppend(v, [Field(AdditionalProperties, Bool(false))], Properties);
  }

  /** The strict `required` lists every property, so in particular those required before. */
  lemma RequiredRefines(c: Setting, n: nat, m: nat, g: Fields, h: nat, props: set<Name>, i: Json)
    requires h < |g| && g[h].key == Required && RequiredWithin(g) && Has(g, Properties) && Value(g, Properties).Obj?
    requires Eval(c.kw, n, c.Strict(), Obj(Shaped(PureFields(c.t, g))), i)
    ensures TightField(c.kw, m, c.Original(), true, props, g[h], i)
  {
    var ps := Value(g, Properties).fields;
    var y := StrictRequired(c.t, g);
    EvalField(c.kw, n, c.Strict(), Shaped(PureFields(c.t, g)), i, y);
    if g[h].value.Arr? && i.Obj? {
      var items := g[h].value.items;
      forall q | 0 <= q < |items| && items[q].Str? ensures Has(i.fields, Parse(items[q].s)) {
        assert items[q] in Names(ps);
        var r :| 0 <= r < |Names(ps)| && Names(ps)[r] == items[q];
        assert y.value.items[r].Str?;
      }
    }
  }

  /** Every instance the strict schema accepts is accepted by the original, with all properties and no others. */
  lemma StrictNarrows(c: Setting, i: Json)
    requires c.Valid() && Accepts(c.kw, c.Strict(), i)
    ensures AcceptsTightly(c.kw, c.Original(), i) && Accepts(c.kw, c.Original(), i)
  {
    var lo: nat :| AcceptsFrom(c.kw, c.Strict(), i, lo);
    assert c.Ready(None);
    var lo' := c.Reach(lo) + Weight(c.w, c.Original());
    forall m: nat | m >= lo'
      ensures Tight(c.kw, m, c.Original(), true, c.Original(), i) && Eval(c.kw, m, c.Original(), c.Original(), i)
    {
      Refines(c, lo, m, c.Original(), i);
      TightAccepts(c, m, m, true, c.Original(), i);
    }
    assert AcceptsTightlyFrom(c.kw, c.Original(), i, lo') && AcceptsFrom(c.kw, c.Original(), i, lo');
  }

  /** Narrowing holds of whatever the in-place rewriter returns, if it returns anything at all. */
  ghost predicate Narrows(kw: Meaning, original: Json, result: Result<Json>) {
    result.Ok? ==> forall i :: Accepts(kw, result.value, i) ==> Accepts(kw, original, i)
  }

  /** The schemas of the refinement theorem. */
  ghost predicate Refinable(kw: Meaning, rank: Ranks, targets: set<DefKey>, schema: Fields) {
    && OrderFree(rank, targets, schema)
    && Harmless(kw, Obj(schema)) && Sound(kw, Obj(schema), rank.Keys, Obj(schema))
  }

  /**
   The in-place rewriter succeeds on every such schema, and what it returns accepts only what the
   original accepts.
   */
  lemma NormalizeRefines(kw: Meaning, rank: Ranks, targets: set<DefKey>, schema: Fields) returns (depth: nat)
    requires Refinable(kw, rank, targets, schema)
    ensures forall limit | limit >= depth :: Normalize(Obj(schema), limit).Ok?
    ensures forall limit: nat :: Narrows(kw, Obj(schema), Normalize(Obj(schema), limit))
  {
    var w := AcyclicWeights(rank, targets, {}, schema);
    var t := FinishedTable(rank, targets, schema, w);
    depth := Weight(w, Obj(schema));
    var c := Setting(kw, t, w, schema);
    SettingValid(c);
    forall limit | limit >= depth ensures Normalize(Obj(schema), limit) == Ok(c.Strict()) {
      InPlaceIsPure(t, w, schema, limit);
    }
    forall limit: nat ensures Narrows(kw, Obj(schema), Normalize(Obj(schema), limit)) {
      if Normalize(Obj(schema), limit).Ok? {
        MoreDepth(Obj(schema), limit, limit + depth);
        forall i | Accepts(kw, c.Strict(), i) ensures Accepts(kw, Obj(schema), i) { StrictNarrows(c, i); }
      }
    }
  }
}
