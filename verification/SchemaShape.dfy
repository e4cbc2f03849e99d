/**
 What a dictionary that is neither inlined nor collapsed becomes, keyword by keyword: response_format.py lines 71-119.
 */
module SchemaShape {
  import opened Options
  import opened Json
  import opened SchemaNormalizer
  import opened SchemaNormalForm

  /** The keywords that the rewriter looks into. */
  const VISITED := {Properties, Items, Defs, Definitions, AnyOf, OneOf, AllOf}

  lemma FirstGet(root: Json, p: seq<nat>, f: Fields, limit: nat, q: Name)
    requires ValidPath(root, p) && NormFirst(root, p, f, limit).Ok?
    ensures var h := NormFirst(root, p, f, limit).value;
            Has(h, q) == Has(f, q) && (q !in {Properties, Items, Defs, Definitions} ==> Get(h, q) == Get(f, q))
  {
    var f1 := NormKey(root, p, f, Properties, limit).value;
    var f2 := NormKey(root, p, f1, Items, limit).value;
    var f3 := NormKey(root, p, f2, Defs, limit).value;
    SameSize(root, p, f, Properties, limit);
    SameSize(root, p, f1, Items, limit);
    SameSize(root, p, f2, Defs, limit);
    SameSize(root, p, f3, Definitions, limit);
    KeyFrameGet(root, p, f, Properties, limit, q);
    KeyFrameGet(root, p, f1, Items, limit, q);
    KeyFrameGet(root, p, f2, Defs, limit, q);
    KeyFrameGet(root, p, f3, Definitions, limit, q);
  }

  lemma LastGet(root: Json, p: seq<nat>, h: Fields, limit: nat, q: Name)
    requires ValidPath(root, p) && NormLast(root, p, h, limit).Ok?
    ensures var r := NormLast(root, p, h, limit).value;
            Has(r, q) == Has(h, q) && (q !in {AnyOf, OneOf, AllOf} ==> Get(r, q) == Get(h, q))
  {
    var f1 := NormKey(root, p, h, AnyOf, limit).value;
    var f2 := NormKey(root, p, f1, OneOf, limit).value;
    SameSize(root, p, h, AnyOf, limit);
    SameSize(root, p, f1, OneOf, limit);
    SameSize(root, p, f2, AllOf, limit);
    KeyFrameGet(root, p, h, AnyOf, limit, q);
    KeyFrameGet(root, p, f1, OneOf, limit, q);
    KeyFrameGet(root, p, f2, AllOf, limit, q);
  }

  lemma SameSize(root: Json, p: seq<nat>, f: Fields, k: Name, limit: nat)
    requires ValidPath(root, p) && NormKey(root, p, f, k, limit).Ok?
    ensures |NormKey(root, p, f, k, limit).value| == |f|
  {
    KeyFrame(root, p, f, k, limit);
  }

  /** Outside the visited keywords, the result has what the shaped dictionary has. */
  lemma PlainGet(root: Json, p: seq<nat>, g: Fields, limit: nat, q: Name)
    requires ValidPath(root, p) && !SingleAllOf(g) && NormPlain(root, p, g, limit).Ok?
    ensures NormPlain(root, p, g, limit).value.Obj?
    ensures var r := NormPlain(root, p, g, limit).value.fields;
            Has(r, q) == Has(Shaped(g), q) && (q !in VISITED ==> Get(r, q) == Get(Shaped(g), q))
  {
    var s := Shaped(g);
    ShapedGet(g, AllOf);
    FirstGet(root, p, s, limit, AllOf);
    FirstGet(root, p, s, limit, q);
    LastGet(root, p, NormFirst(root, p, s, limit).value, limit, q);
  }

  lemma DefaultsGet(g: Fields)
    ensures Get(Shaped(g), AdditionalProperties) ==
            if Has(g, AdditionalProperties) then Get(g, AdditionalProperties)
            else if || Has(g, Properties)
                    || (Has(g, Type) && Value(g, Type) == Str("object"))
                    || (Has(g, Type) && Value(g, Type).Arr? && Str("object") in Value(g, Type).items)
            then Some(Bool(false))
            else None
  {
    var d := SetDefaults(g);
    IndexAppend(g, [Field(AdditionalProperties, Bool(false))], AdditionalProperties);
    IndexAppend(g, [Field(AdditionalProperties, Bool(false))], Properties);
    if Has(d, Properties) && Value(d, Properties).Obj? {
      PutGet(d, Required, Arr(Names(Value(d, Properties).fields)), AdditionalProperties);
    }
  }

  lemma RequiredGet(g: Fields)
    ensures Get(Shaped(g), Required) ==
            if Has(g, Properties) && Value(g, Properties).Obj? then Some(Arr(Names(Value(g, Properties).fields)))
            else Get(g, Required)
  {
    var d := SetDefaults(g);
    IndexAppend(g, [Field(AdditionalProperties, Bool(false))], Properties);
    IndexAppend(g, [Field(AdditionalProperties, Bool(false))], Required);
    if Has(d, Properties) && Value(d, Properties).Obj? {
      PutGet(d, Required, Arr(Names(Value(d, Properties).fields)), Required);
    }
  }

  /**
   `additionalProperties` stays what it was; without it, it becomes `false` if the dictionary has `properties` or the
   type "object", alone or in a list, and stays away otherwise.
   */
  lemma AdditionalPropertiesOf(root: Json, p: seq<nat>, f: Fields, limit: nat)
    requires ValidPath(root, p) && NormDict(root, p, f, limit).Ok?
    requires var g := Drop(f, {Default}); !Inlines(g) && !SingleAllOf(g)
    ensures NormDict(root, p, f, limit).value.Obj?
    ensures Get(NormDict(root, p, f, limit).value.fields, AdditionalProperties) ==
            if Has(f, AdditionalProperties) then Some(Value(f, AdditionalProperties))
            else if || Has(f, Properties)
                    || (Has(f, Type) && Value(f, Type) == Str("object"))
                    || (Has(f, Type) && Value(f, Type).Arr? && Str("object") in Value(f, Type).items)
            then Some(Bool(false))
            else None
  {
    var g := Drop(f, {Default});
    PlainGet(root, p, g, limit, AdditionalProperties);
    DefaultsGet(g);
    DropGet(f, {Default}, AdditionalProperties);
    DropGet(f, {Default}, Properties);
    DropGet(f, {Default}, Type);
  }

  /** `required` becomes the list of the names in `properties`, in order, and stays what it was without them. */
  lemma RequiredOf(root: Json, p: seq<nat>, f: Fields, limit: nat)
    requires ValidPath(root, p) && NormDict(root, p, f, limit).Ok?
    requires var g := Drop(f, {Default}); !Inlines(g) && !SingleAllOf(g)
    ensures NormDict(root, p, f, limit).value.Obj?
    ensures var r := Get(NormDict(root, p, f, limit).value.fields, Required);
            if Has(f, Properties) && Value(f, Properties).Obj? then
              && r.Some? && r.value.Arr? && |r.value.items| == |Value(f, Properties).fields|
              && forall j | 0 <= j < |r.value.items| ::
                   r.value.items[j] == Str(Spell(Value(f, Properties).fields[j].key))
            else r == Get(f, Required)
  {
    var g := Drop(f, {Default});
    PlainGet(root, p, g, limit, Required);
    RequiredGet(g);
    DropGet(f, {Default}, Required);
    DropGet(f, {Default}, Properties);
  }

  /** `default` goes, and every keyword that is neither visited nor one of these two stays as it is. */
  lemma OthersOf(root: Json, p: seq<nat>, f: Fields, limit: nat, q: Name)
    requires ValidPath(root, p) && NormDict(root, p, f, limit).Ok?
    requires var g := Drop(f, {Default}); !Inlines(g) && !SingleAllOf(g)
    ensures NormDict(root, p, f, limit).value.Obj?
    ensures var r := NormDict(root, p, f, limit).value.fields;
            && !Has(r, Default)
            && (q !in VISITED + {Default, AdditionalProperties, Required} ==> Get(r, q) == Get(f, q))
            && (q in VISITED ==> Has(r, q) == Has(f, q))
  {
    var g := Drop(f, {Default});
    PlainGet(root, p, g, limit, q);
    PlainGet(root, p, g, limit, Default);
    ShapedGet(g, q);
    ShapedGet(g, Default);
    DropGet(f, {Default}, q);
    DropGet(f, {Default}, Default);
  }

  // ---- inlining and collapsing -------------------------------------------------------------

  /**
   A dictionary that has, besides `default`, a string under `$ref` and anything else, becomes what the rewriter makes of
   the dictionary `m` without that `$ref`, with its own value for each keyword it has and the target's for the others;
   if the `$ref` does not resolve in the document as it is then, its error is raised.
   */
  lemma InlinedOf(root: Json, p: seq<nat>, f: Fields, limit: nat, ref: string) returns (m: Fields)
    requires ValidPath(root, p) && Get(f, Ref) == Some(Str(ref)) && |Drop(f, {Default})| > 1
    ensures var found := Resolve(PutAt(root, p, Obj(Drop(f, {Default}))), ref);
            if found.Err? then NormDict(root, p, f, limit) == Err(found.error)
            else
              && NormDict(root, p, f, limit) == NormNode(root, p, Obj(m), limit)
              && forall q :: Get(m, q) ==
                   if q == Ref then None else if Has(f, q) && q != Default then Get(f, q) else Get(found.value, q)
  {
    var g := Drop(f, {Default});
    DropGet(f, {Default}, Ref);
    var found := Resolve(PutAt(root, p, Obj(g)), ref);
    m := [];
    if found.Ok? {
      m := Inlined(g, found.value);
      forall q
        ensures Get(m, q) ==
                if q == Ref then None else if Has(f, q) && q != Default then Get(f, q) else Get(found.value, q)
      {
        DropGet(f, {Default}, q);
        MergeGet(g, found.value, q);
        DropGet(Merge(g, found.value), {Ref}, q);
      }
    }
  }

  /** What the own keywords of a dictionary with a single `allOf` are when it is merged with the member `x`. */
  predicate CollapsedKeyword(f: Fields, x: Fields, m: Fields, q: Name) {
    if q == AllOf then !Has(m, q)
    else if q in {Properties, Items, Defs, Definitions} then
      if Has(f, q) then Has(m, q) else Get(m, q) == Get(x, q)
    else if q == AdditionalProperties && !Has(f, q) then
      Get(m, q) ==
      if || Has(f, Properties)
         || (Has(f, Type) && Value(f, Type) == Str("object"))
         || (Has(f, Type) && Value(f, Type).Arr? && Str("object") in Value(f, Type).items)
      then Some(Bool(false)) else Get(x, q)
    else if q == Required && Has(f, Properties) && Value(f, Properties).Obj? then
      Get(m, q) == Some(Arr(Names(Value(f, Properties).fields)))
    else Get(m, q) == if Has(f, q) && q != Default then Get(f, q) else Get(x, q)
  }

  /**
   A dictionary that is not inlined and has a list with the one dictionary `x` under `allOf` becomes what the rewriter
   makes of `m`, which has no `allOf`, the dictionary's own keywords after the first half of its rewrite, and of
   `x` what it lacks.
   */
  lemma CollapsedOf(root: Json, p: seq<nat>, f: Fields, limit: nat, x: Fields) returns (m: Fields)
    requires ValidPath(root, p) && !Inlines(Drop(f, {Default})) && Get(f, AllOf) == Some(Arr([Obj(x)]))
    requires NormDict(root, p, f, limit).Ok?
    ensures NormDict(root, p, f, limit) == NormNode(root, p, Obj(m), limit)
    ensures forall q :: CollapsedKeyword(f, x, m, q)
  {
    var g := Drop(f, {Default});
    DropGet(f, {Default}, AllOf);
    var h := PlainCollapses(root, p, g, limit, x);
    m := Collapsed(h, x);
    forall q ensures CollapsedKeyword(f, x, m, q) {
      FirstGet(root, p, Shaped(g), limit, q);
      KeywordOf(f, x, h, q);
    }
  }

  lemma PlainCollapses(root: Json, p: seq<nat>, g: Fields, limit: nat, x: Fields) returns (h: Fields)
    requires ValidPath(root, p) && Get(g, AllOf) == Some(Arr([Obj(x)])) && NormPlain(root, p, g, limit).Ok?
    ensures NormFirst(root, p, Shaped(g), limit) == Ok(h)
    ensures NormPlain(root, p, g, limit) == NormNode(root, p, Obj(Collapsed(h, x)), limit)
  {
    h := NormFirst(root, p, Shaped(g), limit).value;
    ShapedGet(g, AllOf);
    FirstGet(root, p, Shaped(g), limit, AllOf);
    TailCollapses(root, p, h, limit, x);
  }

  lemma TailCollapses(root: Json, p: seq<nat>, h: Fields, limit: nat, x: Fields)
    requires ValidPath(root, p) && Get(h, AllOf) == Some(Arr([Obj(x)]))
    ensures NormTail(root, p, h, limit) == NormNode(root, p, Obj(Collapsed(h, x)), limit)
  {
  }

  lemma KeywordOf(f: Fields, x: Fields, h: Fields, q: Name)
    requires var s := Shaped(Drop(f, {Default}));
             Has(h, q) == Has(s, q) && (q !in {Properties, Items, Defs, Definitions} ==> Get(h, q) == Get(s, q))
    ensures CollapsedKeyword(f, x, Collapsed(h, x), q)
  {
    MergeGet(h, x, q);
    DropGet(Merge(h, x), {AllOf}, q);
    ShapedOwn(f, q);
  }

  /** What the shaped dictionary has under one keyword. */
  lemma ShapedOwn(f: Fields, q: Name)
    ensures var s := Shaped(Drop(f, {Default}));
            if q == AdditionalProperties && !Has(f, q) then
              Get(s, q) ==
              if || Has(f, Properties)
                 || (Has(f, Type) && Value(f, Type) == Str("object"))
                 || (Has(f, Type) && Value(f, Type).Arr? && Str("object") in Value(f, Type).items)
              then Some(Bool(false)) else None
            else if q == Required && Has(f, Properties) && Value(f, Properties).Obj? then
              Get(s, q) == Some(Arr(Names(Value(f, Properties).fields)))
            else Get(s, q) == if q == Default then None else Get(f, q)
  {
    var g := Drop(f, {Default});
    DropGet(f, {Default}, q);
    DropGet(f, {Default}, Properties);
    DropGet(f, {Default}, Type);
    if q == AdditionalProperties { DefaultsGet(g); }
    else if q == Required { RequiredGet(g); }
    else { ShapedGet(g, q); }
  }

  // ---- the normal form, spelled out --------------------------------------------------------

  /** What the normal form asks of one dictionary. */
  lemma NormalPlace(f: Fields)
    ensures TopNormal(f) <==>
            && Get(f, Default) == None
            && !(Has(f, Ref) && Value(f, Ref).Str? && |f| >= 2)
            && !(Has(f, AllOf) && Value(f, AllOf).Arr? && |Value(f, AllOf).items| == 1)
            && (|| Has(f, Properties)
                || (Has(f, Type) && Value(f, Type) == Str("object"))
                || (Has(f, Type) && Value(f, Type).Arr? && Str("object") in Value(f, Type).items)
                ==> Has(f, AdditionalProperties))
            && (Has(f, Properties) && Value(f, Properties).Obj? ==>
                  && Has(f, Required) && Value(f, Required).Arr?
                  && |Value(f, Required).items| == |Value(f, Properties).fields|
                  && forall j | 0 <= j < |Value(f, Required).items| ::
                       Value(f, Required).items[j] == Str(Spell(Value(f, Properties).fields[j].key)))
  {
    if Has(f, Properties) && Value(f, Properties).Obj? && Has(f, Required) && Value(f, Required).Arr? {
      var names, items := Names(Value(f, Properties).fields), Value(f, Required).items;
      assert items == names <==> |items| == |names| && forall j | 0 <= j < |items| :: items[j] == names[j];
    }
  }
}
