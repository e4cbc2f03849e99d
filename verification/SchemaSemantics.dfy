/**
 What a schema accepts, for the keywords the rewriter touches (JSON Schema 2020-12: Core sections
 8.2.3.1, 10.2.1.1-10.2.1.3, 10.3.1.2, 10.3.2.1, 10.3.2.3 and Validation section 6.5.3).

 Every other keyword is an assertion about the instance of its own, with a meaning `kw` that is a
 parameter: the results hold for every such meaning. `n` bounds the number of nested `$ref`s
 followed, so that recursive schemas have a value; a schema accepts an instance when it does so for
 every large enough `n`.
 */
module SchemaSemantics {
  import opened Options
  import opened Json
  import opened SchemaNormalizer

  type Meaning = (Name, Json, Json) -> bool

  /** What a `$ref` names: the document itself, or a place in it. */
  function Target(root: Json, ref: string): Option<Json> {
    if ref == "#" then Some(root)
    else if !IsPointer(ref) then None
    else
      var r := Walk(root, Split(ref[2..], '/'));
      if r.Ok? then Some(r.value) else None
  }

  /** The names `additionalProperties` leaves alone. */
  function PropertyNames(f: Fields): set<Name> {
    if Has(f, Properties) && Value(f, Properties).Obj? then KeySet(Value(f, Properties).fields) else {}
  }

  predicate Eval(kw: Meaning, n: nat, root: Json, s: Json, i: Json)
    decreases n, s, 1
  {
    match s
    case Bool(b) => b
    case Obj(f) => forall j | 0 <= j < |f| :: Check(kw, n, root, PropertyNames(f), f[j], i)
    case _ => false
  }

  predicate Check(kw: Meaning, n: nat, root: Json, props: set<Name>, x: Field, i: Json)
    decreases n, x, 0
  {
    match x.key
    case Ref =>
      x.value.Str? ==>
        n > 0 && Target(root, x.value.s).Some? && Eval(kw, n - 1, root, Target(root, x.value.s).value, i)
    case Properties =>
      x.value.Obj? && i.Obj? ==> CheckProperties(kw, n, root, x.value.fields, i.fields)
    case Required =>
      x.value.Arr? && i.Obj? ==>
        forall j | 0 <= j < |x.value.items| :: x.value.items[j].Str? ==> Has(i.fields, Parse(x.value.items[j].s))
    case AdditionalProperties =>
      i.Obj? ==>
        forall j | 0 <= j < |i.fields| :: i.fields[j].key in props || Eval(kw, n, root, x.value, i.fields[j].value)
    case Items =>
      i.Arr? ==> forall j | 0 <= j < |i.items| :: Eval(kw, n, root, x.value, i.items[j])
    case AnyOf => x.value.Arr? ==> exists j | 0 <= j < |x.value.items| :: Eval(kw, n, root, x.value.items[j], i)
    case OneOf => x.value.Arr? ==> ExactlyOne(kw, n, root, x.value.items, i)
    case AllOf => x.value.Arr? ==> forall j | 0 <= j < |x.value.items| :: Eval(kw, n, root, x.value.items[j], i)
    case Default | Defs | Definitions => true
    case _ => kw(x.key, x.value, i)
  }

  predicate CheckProperties(kw: Meaning, n: nat, root: Json, ps: Fields, i: Fields)
    decreases n, ps, 0
  {
    forall j | 0 <= j < |ps| :: CheckProperty(kw, n, root, ps[j], i)
  }

  predicate CheckProperty(kw: Meaning, n: nat, root: Json, x: Field, i: Fields)
    decreases n, x, 0
  {
    Has(i, x.key) ==> Eval(kw, n, root, x.value, Value(i, x.key))
  }

  predicate ExactlyOne(kw: Meaning, n: nat, root: Json, xs: seq<Json>, i: Json)
    decreases n, xs, 0
  {
    exists j | 0 <= j < |xs| ::
      Eval(kw, n, root, xs[j], i) && forall m | 0 <= m < |xs| && m != j :: !Eval(kw, n, root, xs[m], i)
  }

  // ---- with all properties and no others ---------------------------------------------------

  /** Whether the dictionary says that it describes objects. */
  predicate DescribesObjects(f: Fields) {
    || Has(f, Properties)
    || (Has(f, Type) && Value(f, Type) == Str("object"))
    || (Has(f, Type) && Value(f, Type).Arr? && Str("object") in Value(f, Type).items)
  }

  /** An object has every listed property, and no other unless something is said about others. */
  predicate Whole(f: Fields, i: Json) {
    i.Obj? ==>
      && (Has(f, Properties) && Value(f, Properties).Obj? ==>
            forall j | 0 <= j < |Value(f, Properties).fields| ::
              Has(i.fields, Parse(Spell(Value(f, Properties).fields[j].key))))
      && (DescribesObjects(f) && !Has(f, AdditionalProperties) ==>
            forall j | 0 <= j < |i.fields| :: i.fields[j].key in PropertyNames(f))
  }

  /**
   Acceptance with every listed property and no other at each object, wherever the schema is `visited`: in properties,
   items, alternatives and behind `$ref`s, but not in what `additionalProperties` says.
   */
  predicate Tight(kw: Meaning, n: nat, root: Json, visited: bool, s: Json, i: Json)
    decreases n, s, 1
  {
    match s
    case Bool(b) => b
    case Obj(f) =>
      && (visited ==> Whole(f, i))
      && forall j | 0 <= j < |f| :: TightField(kw, n, root, visited, PropertyNames(f), f[j], i)
    case _ => false
  }

  predicate TightField(kw: Meaning, n: nat, root: Json, visited: bool, props: set<Name>, x: Field, i: Json)
    decreases n, x, 0
  {
    match x.key
    case Ref =>
      x.value.Str? ==>
        n > 0 && Target(root, x.value.s).Some? && Tight(kw, n - 1, root, true, Target(root, x.value.s).value, i)
    case Properties =>
      x.value.Obj? && i.Obj? ==> TightProperties(kw, n, root, visited, x.value.fields, i.fields)
    case Required =>
      x.value.Arr? && i.Obj? ==>
        forall j | 0 <= j < |x.value.items| :: x.value.items[j].Str? ==> Has(i.fields, Parse(x.value.items[j].s))
    case AdditionalProperties =>
      i.Obj? ==>
        forall j | 0 <= j < |i.fields| ::
          i.fields[j].key in props || Tight(kw, n, root, false, x.value, i.fields[j].value)
    case Items =>
      i.Arr? ==> forall j | 0 <= j < |i.items| :: Tight(kw, n, root, visited, x.value, i.items[j])
    case AnyOf =>
      x.value.Arr? ==> exists j | 0 <= j < |x.value.items| :: Tight(kw, n, root, visited, x.value.items[j], i)
    case OneOf => x.value.Arr? ==> TightOne(kw, n, root, visited, x.value.items, i)
    case AllOf =>
      x.value.Arr? ==> forall j | 0 <= j < |x.value.items| :: Tight(kw, n, root, visited, x.value.items[j], i)
    case Default | Defs | Definitions => true
    case _ => kw(x.key, x.value, i)
  }

  predicate TightProperties(kw: Meaning, n: nat, root: Json, visited: bool, ps: Fields, i: Fields)
    decreases n, ps, 0
  {
    forall j | 0 <= j < |ps| :: TightProperty(kw, n, root, visited, ps[j], i)
  }

  predicate TightProperty(kw: Meaning, n: nat, root: Json, visited: bool, x: Field, i: Fields)
    decreases n, x, 0
  {
    Has(i, x.key) ==> Tight(kw, n, root, visited, x.value, Value(i, x.key))
  }

  predicate TightOne(kw: Meaning, n: nat, root: Json, visited: bool, xs: seq<Json>, i: Json)
    decreases n, xs, 0
  {
    exists j | 0 <= j < |xs| ::
      Tight(kw, n, root, visited, xs[j], i) && forall m | 0 <= m < |xs| && m != j :: !Eval(kw, n, root, xs[m], i)
  }

  ghost predicate AcceptsTightly(kw: Meaning, root: Json, i: Json) {
    exists lo: nat :: AcceptsTightlyFrom(kw, root, i, lo)
  }

  ghost predicate AcceptsTightlyFrom(kw: Meaning, root: Json, i: Json, lo: nat) {
    forall n: nat | n >= lo :: Tight(kw, n, root, true, root, i)
  }

  // ---- acceptance --------------------------------------------------------------------------

  /** Accepted with every large enough bound on nested `$ref`s. */
  ghost predicate Accepts(kw: Meaning, root: Json, i: Json) {
    exists lo: nat :: AcceptsFrom(kw, root, i, lo)
  }

  ghost predicate AcceptsFrom(kw: Meaning, root: Json, i: Json, lo: nat) {
    forall n: nat | n >= lo :: Eval(kw, n, root, root, i)
  }
}
