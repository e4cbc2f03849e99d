/**
 The rewriter as it runs: one document, changed in place, proved against the functions of
 SchemaNormalizer. A node is named by its position `p`; `base` is the document as it was around `p`
 when the rewrite of that node began.
 */
module SchemaDocument {
  import opened Options
  import opened Json
  import opened SchemaNormalizer
  import opened SchemaValidator

  /** A rewrite that should turn the value at `p` into what `r` holds, or raise what `r` says. */
  predicate Outcome(base: Json, p: seq<nat>, r: Result<Json>, after: Json, status: Result<()>)
    requires ValidPath(base, p)
  {
    if r.Ok? then status == Ok(()) && after == PutAt(base, p, r.value) else status == Err(r.error)
  }

  function AsNode(r: Result<Fields>): Result<Json> {
    if r.Ok? then Ok(Obj(r.value)) else Err(r.error)
  }

  class Document {
    var root: Json

    constructor (schema: Json)
      ensures root == schema
    {
      root := schema;
    }

    /** The document differs from `base` at `p` at most. */
    ghost predicate Within(base: Json, p: seq<nat>)
      reads this
    {
      ValidPath(base, p) && ValidPath(root, p) && root == PutAt(base, p, At(root, p))
    }

    /** `_resolve_json_ref`. */
    method ResolveRef(ref: string) returns (r: Result<Fields>)
      ensures r == Resolve(root, ref)
    {
      if !IsPointer(ref) {
        return Err(NotAPointer);
      }
      var keys := Split(ref[2..], '/');
      var node, i := root, 0;
      while i < |keys|
        invariant 0 <= i <= |keys|
        invariant Walk(root, keys) == Walk(node, keys[i..])
      {
        if !node.Obj? {
          return Err(NotADictionary);
        }
        var k := Parse(keys[i]);
        if !Has(node.fields, k) {
          return Err(KeyNotFound);
        }
        assert keys[i..][1..] == keys[i + 1..];
        node := Value(node.fields, k);
        i := i + 1;
      }
      if node.Obj? { r := Ok(node.fields); } else { r := Err(NotAnObject); }
    }

    /** `_normalize_schema_node`. */
    method NormalizeNode(p: seq<nat>, limit: nat, ghost base: Json) returns (status: Result<()>)
      requires Within(base, p)
      modifies this
      ensures Outcome(base, p, NormNode(base, p, old(At(root, p)), limit), root, status)
      decreases limit, 0
    {
      if limit == 0 {
        return Err(RecursionLimit);
      }
      var node := At(root, p);
      if node.Obj? {
        status := NormalizeDict(p, limit - 1, base);
      } else if node.Arr? {
        status := NormalizeMembers(p, limit - 1, base);
      } else {
        status := Ok(());
      }
    }

    /** The loop over a list, or over the values of a dictionary. */
    method NormalizeMembers(p: seq<nat>, limit: nat, ghost base: Json) returns (status: Result<()>)
      requires Within(base, p)
      modifies this
      ensures Outcome(base, p, NormMembers(base, p, old(At(root, p)), 0, limit), root, status)
      decreases limit, 1
    {
      ghost var c0 := At(root, p);
      var i, size := 0, Size(At(root, p));
      while i < size
        invariant 0 <= i <= size && Within(base, p) && Size(At(root, p)) == size
        invariant NormMembers(base, p, At(root, p), i, limit) == NormMembers(base, p, c0, 0, limit)
      {
        ghost var c := At(root, p);
        PutChild(base, p, c, i, Child(c, i));
        PutSame(root, p + [i]);
        var s := NormalizeNode(p + [i], limit, root);
        if s.Err? {
          return s;
        }
        PutChild(base, p, c, i, At(root, p + [i]));
        i := i + 1;
      }
      status := Ok(());
    }

    /** The visit of what is stored under one keyword. */
    method NormalizeKey(p: seq<nat>, k: Name, limit: nat, ghost base: Json) returns (status: Result<()>)
      requires Within(base, p) && At(root, p).Obj?
      modifies this
      ensures Outcome(base, p, AsNode(NormKey(base, p, old(At(root, p)).fields, k, limit)), root, status)
      decreases limit, 2
    {
      var f := At(root, p).fields;
      status := Ok(());
      if Has(f, k) {
        var i, v := Index(f, k), Value(f, k);
        PutChild(base, p, Obj(f), i, v);
        PutSame(root, p + [i]);
        if k == Items {
          if !v.Null? {
            status := NormalizeNode(p + [i], limit, root);
            if status.Ok? { PutChild(base, p, Obj(f), i, At(root, p + [i])); }
          }
        } else if VisitsMembers(k, v) {
          status := NormalizeMembers(p + [i], limit, root);
          if status.Ok? { PutChild(base, p, Obj(f), i, At(root, p + [i])); }
        }
      }
    }

    /** `_normalize_schema_dict`. */
    method NormalizeDict(p: seq<nat>, limit: nat, ghost base: Json) returns (status: Result<()>)
      requires Within(base, p) && At(root, p).Obj?
      modifies this
      ensures Outcome(base, p, NormDict(base, p, old(At(root, p)).fields, limit), root, status)
      decreases limit, 6
    {
      var f := At(root, p).fields;
      var g := Drop(f, {Default});
      Write(p, Obj(g), base);
      if Inlines(g) {
        var target := ResolveRef(StrRef(g).value);
        if target.Err? {
          return Err(target.error);
        }
        Write(p, Obj(Inlined(g, target.value)), base);
        status := NormalizeNode(p, limit, base);
      } else {
        assert NormDict(base, p, f, limit) == NormPlain(base, p, g, limit);
        Write(p, Obj(Shaped(g)), base);
        status := NormalizeFirst(p, limit, base);
        if status.Ok? {
          status := NormalizeTail(p, limit, base);
        }
      }
    }

    /** `properties`, `items`, `$defs` and `definitions`, in this order. */
    method NormalizeFirst(p: seq<nat>, limit: nat, ghost base: Json) returns (status: Result<()>)
      requires Within(base, p) && At(root, p).Obj?
      modifies this
      ensures Outcome(base, p, AsNode(NormFirst(base, p, old(At(root, p)).fields, limit)), root, status)
      decreases limit, 3
    {
      status := NormalizeKey(p, Properties, limit, base);
      if status.Ok? {
        status := NormalizeKey(p, Items, limit, base);
        if status.Ok? {
          status := NormalizeKey(p, Defs, limit, base);
          if status.Ok? {
            status := NormalizeKey(p, Definitions, limit, base);
          }
        }
      }
    }

    /** `_collapse_single_all_of`, or else `anyOf`, `oneOf` and `allOf`. */
    method NormalizeTail(p: seq<nat>, limit: nat, ghost base: Json) returns (status: Result<()>)
      requires Within(base, p) && At(root, p).Obj?
      modifies this
      ensures Outcome(base, p, NormTail(base, p, old(At(root, p)).fields, limit), root, status)
      decreases limit, 4
    {
      var h := At(root, p).fields;
      if SingleAllOf(h) {
        if !Member(h).Obj? {
          return Err(NotAMapping);
        }
        Write(p, Obj(Collapsed(h, Member(h).fields)), base);
        status := NormalizeNode(p, limit, base);
      } else {
        status := NormalizeLast(p, limit, base);
      }
    }

    /** `anyOf`, `oneOf` and `allOf`, in this order. */
    method NormalizeLast(p: seq<nat>, limit: nat, ghost base: Json) returns (status: Result<()>)
      requires Within(base, p) && At(root, p).Obj?
      modifies this
      ensures Outcome(base, p, AsNode(NormLast(base, p, old(At(root, p)).fields, limit)), root, status)
      decreases limit, 3
    {
      status := NormalizeKey(p, AnyOf, limit, base);
      if status.Ok? {
        status := NormalizeKey(p, OneOf, limit, base);
        if status.Ok? {
          status := NormalizeKey(p, AllOf, limit, base);
        }
      }
    }

    method Write(p: seq<nat>, v: Json, ghost base: Json)
      requires Within(base, p)
      modifies this
      ensures Within(base, p) && root == PutAt(base, p, v) && At(root, p) == v
    {
      PutPut(base, p, At(root, p), v);
      root := PutAt(root, p, v);
    }
  }

  /** `to_strict_json_schema`: rewrites a copy in place, then validates it. */
  method ToStrictJsonSchema(schema: Json, limit: nat) returns (r: Result<Json>)
    ensures r == ToStrict(schema, limit)
  {
    var document := new Document(schema);
    var status := document.NormalizeNode([], limit, schema);
    if status.Err? {
      return Err(status.error);
    }
    var e := Validate(document.root, []);
    if e.Some? { r := Err(e.value); } else { r := Ok(document.root); }
  }
}
