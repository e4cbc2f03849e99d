/**
 The strict-schema rewriter of core/app/llmhubs/response_format.py as a function of its state.

 The Python code mutates one document: `root` contains the node being rewritten, and a `$ref` is
 resolved in whatever `root` is at that moment. Here the document at any moment is
 `PutAt(root, p, node)`: `p` is where the activation works, `node` what it has made of that place so
 far, and `root` everything else. Every function returns the new value for place `p`.

 `limit` is the interpreter's recursion limit, counted in nested `_normalize_schema_node` calls, so
 a schema that makes the Python code recurse for ever ends in `RecursionLimit` whatever the limit.
 */
module SchemaNormalizer {
  import opened Options
  import opened Json

  datatype Error =
    | NotAPointer            // a `$ref` that does not start with "#/"
    | NotADictionary         // a `$ref` path through something that is not a dictionary
    | KeyNotFound            // a `$ref` path that does not exist
    | NotAnObject            // a `$ref` that resolves to something else than a dictionary
    | NotAMapping            // the single member of an `allOf` is not a dictionary
    | RecursionLimit
    | RootAnyOf
    | RootNotObject
    | UnsupportedKeywords(at: seq<string>, keywords: set<string>)

  datatype Result<+T> = Ok(value: T) | Err(error: Error) {
    predicate IsFailure() { Err? }
    function PropagateFailure<U>(): Result<U>
      requires Err?
    {
      Err(error)
    }
    function Extract(): T
      requires Ok?
    {
      value
    }
  }

  // ---- `$ref` resolution -------------------------------------------------------------------

  /** `s.split(c)`. */
  function Split(s: string, c: char): (r: seq<string>)
    ensures |r| >= 1
  {
    if s == "" then [""]
    else if s[0] == c then [""] + Split(s[1..], c)
    else var r := Split(s[1..], c); [[s[0]] + r[0]] + r[1..]
  }

  function Walk(node: Json, keys: seq<string>): Result<Json> {
    if keys == [] then Ok(node)
    else if !node.Obj? then Err(NotADictionary)
    else if !Has(node.fields, Parse(keys[0])) then Err(KeyNotFound)
    else Walk(Value(node.fields, Parse(keys[0])), keys[1..])
  }

  predicate IsPointer(ref: string) {
    "#/" <= ref
  }

  function Resolve(root: Json, ref: string): Result<Fields> {
    if !IsPointer(ref) then Err(NotAPointer)
    else
      var node :- Walk(root, Split(ref[2..], '/'));
      if node.Obj? then Ok(node.fields) else Err(NotAnObject)
  }

  // ---- one dictionary ----------------------------------------------------------------------

  /** The string under `$ref`, if there is one. */
  function StrRef(f: Fields): Option<string> {
    if Has(f, Ref) && Value(f, Ref).Str? then Some(Value(f, Ref).s) else None
  }

  /** A `$ref` with siblings, which is inlined. */
  predicate Inlines(f: Fields) {
    StrRef(f).Some? && |f| > 1
  }

  /** The node after `node.update({**resolved, **node}); node.pop("$ref")`. */
  function Inlined(f: Fields, target: Fields): Fields {
    Drop(Merge(f, target), {Ref})
  }

  predicate SingleAllOf(f: Fields) {
    Has(f, AllOf) && Value(f, AllOf).Arr? && |Value(f, AllOf).items| == 1
  }

  function Member(f: Fields): Json
    requires SingleAllOf(f)
  {
    Value(f, AllOf).items[0]
  }

  /** The node after `node.update({**all_of[0], **node}); node.pop("allOf")`. */
  function Collapsed(f: Fields, member: Fields): Fields {
    Drop(Merge(f, member), {AllOf})
  }

  predicate ObjectType(t: Json) {
    t == Str("object") || (t.Arr? && Str("object") in t.items)
  }

  predicate ObjectLike(f: Fields) {
    (Has(f, Type) && ObjectType(Value(f, Type))) || Has(f, Properties)
  }

  function SetDefaults(f: Fields): Fields {
    if ObjectLike(f) && !Has(f, AdditionalProperties) then
      f + [Field(AdditionalProperties, Bool(false))]
    else f
  }

  function SetRequired(f: Fields): Fields {
    if Has(f, Properties) && Value(f, Properties).Obj? then
      Put(f, Required, Arr(Names(Value(f, Properties).fields)))
    else f
  }

  function Shaped(f: Fields): Fields {
    SetRequired(SetDefaults(f))
  }

  /** Whether the rewriter visits the members of what is stored under `k`. */
  predicate VisitsMembers(k: Name, v: Json) {
    if k == Properties then v.Obj? else v.Obj? || v.Arr?
  }

  /** Same kind of value, same length, same names: only member values may differ. */
  predicate SameShape(a: Json, b: Json) {
    && a.Arr? == b.Arr? && a.Obj? == b.Obj? && Size(a) == Size(b)
    && (a.Obj? ==> SameNames(a.fields, b.fields))
  }

  predicate SameNames(f: Fields, g: Fields) {
    |f| == |g| && forall i :: 0 <= i < |f| ==> f[i].key == g[i].key
  }

  // ---- the rewriter ------------------------------------------------------------------------

  function NormNode(root: Json, p: seq<nat>, node: Json, limit: nat): Result<Json>
    requires ValidPath(root, p)
    decreases limit, 0
  {
    if limit == 0 then Err(RecursionLimit)
    else
      match node
      case Obj(f) => NormDict(root, p, f, limit - 1)
      case Arr(_) => NormMembers(root, p, node, 0, limit - 1)
      case _ => Ok(node)
  }

  /** Rewrites the members `i..` of the list or dictionary `c` one after the other. */
  function NormMembers(root: Json, p: seq<nat>, c: Json, i: nat, limit: nat): Result<Json>
    requires ValidPath(root, p)
    decreases limit, 1, Size(c) - i
  {
    if i >= Size(c) then Ok(c)
    else
      PutChild(root, p, c, i, Child(c, i));
      var v :- NormNode(PutAt(root, p, c), p + [i], Child(c, i), limit);
      NormMembers(root, p, SetChild(c, i, v), i + 1, limit)
  }

  /** Rewrites what is stored under one keyword of the dictionary `f`. */
  function NormKey(root: Json, p: seq<nat>, f: Fields, k: Name, limit: nat): Result<Fields>
    requires ValidPath(root, p)
    decreases limit, 2
  {
    if !Has(f, k) then Ok(f)
    else
      var i, v := Index(f, k), Value(f, k);
      PutChild(root, p, Obj(f), i, v);
      if k == Items then
        if v.Null? then Ok(f)
        else
          var w :- NormNode(PutAt(root, p, Obj(f)), p + [i], v, limit);
          Ok(f[i := Field(k, w)])
      else if VisitsMembers(k, v) then
        var w :- NormMembers(PutAt(root, p, Obj(f)), p + [i], v, 0, limit);
        Ok(f[i := Field(k, w)])
      else Ok(f)
  }

  /** `properties`, `items`, `$defs`, `definitions`: rewritten before a single `allOf` is looked for. */
  function NormFirst(root: Json, p: seq<nat>, f: Fields, limit: nat): Result<Fields>
    requires ValidPath(root, p)
    decreases limit, 3
  {
    var f1 :- NormKey(root, p, f, Properties, limit);
    var f2 :- NormKey(root, p, f1, Items, limit);
    var f3 :- NormKey(root, p, f2, Defs, limit);
    NormKey(root, p, f3, Definitions, limit)
  }

  /** `anyOf`, `oneOf`, `allOf`: rewritten when there is no single `allOf`. */
  function NormLast(root: Json, p: seq<nat>, f: Fields, limit: nat): Result<Fields>
    requires ValidPath(root, p)
    decreases limit, 3
  {
    var f1 :- NormKey(root, p, f, AnyOf, limit);
    var f2 :- NormKey(root, p, f1, OneOf, limit);
    NormKey(root, p, f2, AllOf, limit)
  }

  function NormDict(root: Json, p: seq<nat>, f: Fields, limit: nat): Result<Json>
    requires ValidPath(root, p)
    decreases limit, 6
  {
    var g := Drop(f, {Default});
    if Inlines(g) then
      var target :- Resolve(PutAt(root, p, Obj(g)), StrRef(g).value);
      NormNode(root, p, Obj(Inlined(g, target)), limit)
    else
      NormPlain(root, p, g, limit)
  }

  /** The rest of `_normalize_schema_dict` when no `$ref` was inlined. */
  function NormPlain(root: Json, p: seq<nat>, g: Fields, limit: nat): Result<Json>
    requires ValidPath(root, p)
    decreases limit, 5
  {
    var h :- NormFirst(root, p, Shaped(g), limit);
    NormTail(root, p, h, limit)
  }

  /** `_collapse_single_all_of`, or else the `anyOf` family. */
  function NormTail(root: Json, p: seq<nat>, h: Fields, limit: nat): Result<Json>
    requires ValidPath(root, p)
    decreases limit, 4
  {
    if SingleAllOf(h) then
      if Member(h).Obj? then NormNode(root, p, Obj(Collapsed(h, Member(h).fields)), limit)
      else Err(NotAMapping)
    else
      var r :- NormLast(root, p, h, limit);
      Ok(Obj(r))
  }

  /** `_normalize_schema_node(normalized, root=normalized)` on a fresh copy of the schema. */
  function Normalize(schema: Json, limit: nat): Result<Json> {
    NormNode(schema, [], schema, limit)
  }

  /** One member of the loop. */
  lemma MembersStep(root: Json, p: seq<nat>, c: Json, i: nat, limit: nat, v: Json)
    requires ValidPath(root, p) && i < Size(c) && ValidPath(PutAt(root, p, c), p + [i])
    requires NormNode(PutAt(root, p, c), p + [i], Child(c, i), limit) == Ok(v)
    ensures NormMembers(root, p, c, i, limit) == NormMembers(root, p, SetChild(c, i, v), i + 1, limit)
  {
  }

  lemma MembersStop(root: Json, p: seq<nat>, c: Json, i: nat, limit: nat)
    requires ValidPath(root, p) && i < Size(c) && ValidPath(PutAt(root, p, c), p + [i])
    requires NormNode(PutAt(root, p, c), p + [i], Child(c, i), limit).Err?
    ensures NormMembers(root, p, c, i, limit) == NormNode(PutAt(root, p, c), p + [i], Child(c, i), limit)
  {
  }

  // ---- what each step leaves alone ---------------------------------------------------------

  lemma {:induction false} MembersShape(root: Json, p: seq<nat>, c: Json, i: nat, limit: nat)
    requires ValidPath(root, p) && NormMembers(root, p, c, i, limit).Ok?
    ensures SameShape(NormMembers(root, p, c, i, limit).value, c)
    decreases Size(c) - i
  {
    if i < Size(c) {
      PutChild(root, p, c, i, Child(c, i));
      var v := NormNode(PutAt(root, p, c), p + [i], Child(c, i), limit).value;
      MembersShape(root, p, SetChild(c, i, v), i + 1, limit);
    }
  }

  /** Rewriting one keyword keeps the names and every other field. */
  lemma KeyFrame(root: Json, p: seq<nat>, f: Fields, k: Name, limit: nat)
    requires ValidPath(root, p) && NormKey(root, p, f, k, limit).Ok?
    ensures var g := NormKey(root, p, f, k, limit).value;
            && SameNames(g, f)
            && (forall i :: 0 <= i < |f| && i != Index(f, k) ==> g[i] == f[i])
            && (Has(f, k) && k != Items ==> SameShape(g[Index(f, k)].value, f[Index(f, k)].value))
  {
    if Has(f, k) {
      var i, v := Index(f, k), Value(f, k);
      PutChild(root, p, Obj(f), i, v);
      if k != Items && VisitsMembers(k, v) {
        MembersShape(PutAt(root, p, Obj(f)), p + [i], v, 0, limit);
      }
    }
  }

  /** The other keywords keep their values. */
  lemma KeyFrameGet(root: Json, p: seq<nat>, f: Fields, k: Name, limit: nat, q: Name)
    requires ValidPath(root, p) && NormKey(root, p, f, k, limit).Ok?
    ensures var g := NormKey(root, p, f, k, limit).value;
            Index(g, q) == Index(f, q) && (q != k ==> Get(g, q) == Get(f, q))
  {
    KeyFrame(root, p, f, k, limit);
    SameKeys(f, NormKey(root, p, f, k, limit).value, q);
  }
}
