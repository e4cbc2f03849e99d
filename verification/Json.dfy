/**
 JSON values as the Python side holds them: a dictionary keeps its keys in insertion order, so it is
 a sequence of fields in which the first field of a name is the one a lookup finds.
 */
module Json {
  import opened Options

  datatype Json =
    | Null
    | Bool(b: bool)
    | Num(n: real)
    | Str(s: string)
    | Arr(items: seq<Json>)
    | Obj(fields: seq<Field>)

  datatype Field = Field(key: Name, value: Json)

  /** A dictionary key. The keywords the rewriter knows have constructors of their own. */
  datatype Name =
    | Ref | Default | Type | Properties | Required | AdditionalProperties | Items
    | Defs | Definitions | AnyOf | OneOf | AllOf
    | Text(text: string)

  function Spell(k: Name): string {
    match k
    case Ref => "$ref"
    case Default => "default"
    case Type => "type"
    case Properties => "properties"
    case Required => "required"
    case AdditionalProperties => "additionalProperties"
    case Items => "items"
    case Defs => "$defs"
    case Definitions => "definitions"
    case AnyOf => "anyOf"
    case OneOf => "oneOf"
    case AllOf => "allOf"
    case Text(s) => s
  }

  /** The key a string spells; keywords never come out as `Text`. */
  function Parse(s: string): (k: Name)
    ensures Spell(k) == s
  {
    if s == "$ref" then Ref
    else if s == "default" then Default
    else if s == "type" then Type
    else if s == "properties" then Properties
    else if s == "required" then Required
    else if s == "additionalProperties" then AdditionalProperties
    else if s == "items" then Items
    else if s == "$defs" then Defs
    else if s == "definitions" then Definitions
    else if s == "anyOf" then AnyOf
    else if s == "oneOf" then OneOf
    else if s == "allOf" then AllOf
    else Text(s)
  }

  type Fields = seq<Field>

  // ---- dictionaries ------------------------------------------------------------------------

  /** Position of the first field named `k`, or `|f|` when there is none. */
  function Index(f: Fields, k: Name): (i: nat)
    ensures i <= |f|
    ensures i < |f| ==> f[i].key == k
  {
    IndexFrom(f, k, 0)
  }

  function IndexFrom(f: Fields, k: Name, i: nat): (r: nat)
    requires i <= |f|
    ensures i <= r <= |f|
    ensures r < |f| ==> f[r].key == k
    decreases |f| - i
  {
    if i == |f| || f[i].key == k then i else IndexFrom(f, k, i + 1)
  }

  lemma {:induction false} IndexFromFirst(f: Fields, k: Name, i: nat)
    requires i <= |f|
    ensures forall j :: i <= j < IndexFrom(f, k, i) ==> f[j].key != k
    decreases |f| - i
  {
    if i < |f| && f[i].key != k { IndexFromFirst(f, k, i + 1); }
  }

  lemma IndexFirst(f: Fields, k: Name)
    ensures forall j :: 0 <= j < Index(f, k) ==> f[j].key != k
  {
    IndexFromFirst(f, k, 0);
  }

  predicate Has(f: Fields, k: Name) {
    Index(f, k) < |f|
  }

  function Value(f: Fields, k: Name): Json
    requires Has(f, k)
  {
    f[Index(f, k)].value
  }

  function Get(f: Fields, k: Name): Option<Json> {
    if Has(f, k) then Some(Value(f, k)) else None
  }

  function KeySet(f: Fields): set<Name> {
    set i | 0 <= i < |f| :: f[i].key
  }

  /** The fields whose names are not in `ks`, in order. */
  function Drop(f: Fields, ks: set<Name>): (r: Fields)
    ensures |r| <= |f|
  {
    if f == [] then [] else if f[0].key in ks then Drop(f[1..], ks) else [f[0]] + Drop(f[1..], ks)
  }

  /** `d[k] = v`: replaces in place, or appends. */
  function Put(f: Fields, k: Name, v: Json): Fields {
    if Has(f, k) then f[Index(f, k) := Field(k, v)] else f + [Field(k, v)]
  }

  /** `f.update({**g, **f})`: keeps every field of `f` and appends what only `g` has. */
  function Merge(f: Fields, g: Fields): Fields {
    f + Drop(g, KeySet(f))
  }

  predicate Distinct(f: Fields) {
    forall i, j :: 0 <= i < j < |f| ==> f[i].key != f[j].key
  }

  function Names(f: Fields): (r: seq<Json>)
    ensures |r| == |f|
    ensures forall i :: 0 <= i < |f| ==> r[i] == Str(Spell(f[i].key))
  {
    seq(|f|, i requires 0 <= i < |f| => Str(Spell(f[i].key)))
  }

  lemma HasIff(f: Fields, k: Name)
    ensures Has(f, k) <==> exists i :: 0 <= i < |f| && f[i].key == k
    ensures Has(f, k) <==> k in KeySet(f)
  {
    IndexFirst(f, k);
    if Has(f, k) { assert f[Index(f, k)].key == k; }
  }

  /** The position of a name is the only one with its two defining properties. */
  lemma IndexIs(f: Fields, k: Name, i: nat)
    requires i <= |f| && (i < |f| ==> f[i].key == k)
    requires forall j :: 0 <= j < i ==> f[j].key != k
    ensures Index(f, k) == i
  {
    IndexFirst(f, k);
  }

  lemma IndexOfDistinct(f: Fields, i: nat)
    requires Distinct(f) && i < |f|
    ensures Index(f, f[i].key) == i
  {
    IndexIs(f, f[i].key, i);
  }

  lemma IndexAppend(f: Fields, g: Fields, k: Name)
    ensures Index(f + g, k) == if Has(f, k) then Index(f, k) else |f| + Index(g, k)
  {
    IndexFirst(f, k);
    IndexFirst(g, k);
    IndexIs(f + g, k, if Has(f, k) then Index(f, k) else |f| + Index(g, k));
  }

  lemma ConsGet(x: Field, f: Fields, k: Name)
    ensures Get([x] + f, k) == if x.key == k then Some(x.value) else Get(f, k)
  {
    IndexAppend([x], f, k);
  }

  lemma {:induction false} DropGet(f: Fields, ks: set<Name>, k: Name)
    ensures Get(Drop(f, ks), k) == if k in ks then None else Get(f, k)
  {
    if f != [] {
      DropGet(f[1..], ks, k);
      assert f == [f[0]] + f[1..];
      ConsGet(f[0], f[1..], k);
      ConsGet(f[0], Drop(f[1..], ks), k);
    }
  }

  lemma {:induction false} DropMember(f: Fields, ks: set<Name>, i: nat)
    requires i < |Drop(f, ks)|
    ensures Drop(f, ks)[i] in f && Drop(f, ks)[i].key !in ks
  {
    assert f == [f[0]] + f[1..];
    if f[0].key in ks {
      DropMember(f[1..], ks, i);
    } else if i > 0 {
      DropMember(f[1..], ks, i - 1);
    }
  }

  lemma Assoc(x: Field, f: Fields, g: Fields)
    ensures [x] + (f + g) == [x] + f + g
  {
  }

  lemma {:induction false} DropAppend(f: Fields, g: Fields, ks: set<Name>)
    ensures Drop(f + g, ks) == Drop(f, ks) + Drop(g, ks)
  {
    if f == [] {
      assert f + g == g;
    } else {
      DropAppend(f[1..], g, ks);
      var fg := f + g;
      assert fg[0] == f[0] && fg[1..] == f[1..] + g;
      if f[0].key !in ks {
        Assoc(f[0], Drop(f[1..], ks), Drop(g, ks));
      }
    }
  }

  lemma {:induction false} DropDrop(f: Fields, ks: set<Name>, ls: set<Name>)
    ensures Drop(Drop(f, ks), ls) == Drop(f, ks + ls)
  {
    if f != [] {
      DropDrop(f[1..], ks, ls);
      if f[0].key !in ks { assert Drop(f, ks)[1..] == Drop(f[1..], ks); }
    }
  }

  /** Dropping names a list does not have changes nothing. */
  lemma {:induction false} DropNothing(f: Fields, ks: set<Name>)
    requires forall i :: 0 <= i < |f| ==> f[i].key !in ks
    ensures Drop(f, ks) == f
  {
    if f != [] {
      assert f[0].key !in ks;
      forall i | 0 <= i < |f[1..]| ensures f[1..][i].key !in ks { assert f[1..][i] == f[i + 1]; }
      DropNothing(f[1..], ks);
    }
  }

  /** What is dropped depends only on which of the list's own names are listed. */
  lemma {:induction false} DropAgree(f: Fields, ks: set<Name>, ls: set<Name>)
    requires forall i :: 0 <= i < |f| ==> (f[i].key in ks <==> f[i].key in ls)
    ensures Drop(f, ks) == Drop(f, ls)
  {
    if f != [] {
      assert f[0].key in ks <==> f[0].key in ls;
      forall i | 0 <= i < |f[1..]| ensures f[1..][i].key in ks <==> f[1..][i].key in ls {
        assert f[1..][i] == f[i + 1];
      }
      DropAgree(f[1..], ks, ls);
    }
  }

  lemma {:induction false} DropDistinct(f: Fields, ks: set<Name>)
    requires Distinct(f)
    ensures Distinct(Drop(f, ks))
  {
    if f != [] {
      forall i, j | 0 <= i < j < |f[1..]| ensures f[1..][i].key != f[1..][j].key {
        assert f[1..][i] == f[i + 1] && f[1..][j] == f[j + 1];
      }
      DropDistinct(f[1..], ks);
      var r := Drop(f[1..], ks);
      if f[0].key !in ks {
        forall j | 0 <= j < |r| ensures r[j].key != f[0].key {
          DropMember(f[1..], ks, j);
          var m :| 0 <= m < |f[1..]| && f[1..][m] == r[j];
          assert f[m + 1] == r[j];
        }
      }
    }
  }

  lemma MergeDistinct(f: Fields, g: Fields)
    requires Distinct(f) && Distinct(g)
    ensures Distinct(Merge(f, g))
  {
    var d := Drop(g, KeySet(f));
    DropDistinct(g, KeySet(f));
    forall i, j | 0 <= i < |f| && 0 <= j < |d| ensures f[i].key != d[j].key {
      DropMember(g, KeySet(f), j);
      HasIff(f, f[i].key);
    }
  }

  lemma MergeGet(f: Fields, g: Fields, k: Name)
    ensures Get(Merge(f, g), k) == if Has(f, k) then Get(f, k) else Get(g, k)
  {
    IndexAppend(f, Drop(g, KeySet(f)), k);
    DropGet(g, KeySet(f), k);
    HasIff(f, k);
  }

  lemma PutGet(f: Fields, k: Name, v: Json, q: Name)
    ensures Get(Put(f, k, v), q) == if q == k then Some(v) else Get(f, q)
  {
    if Has(f, k) {
      SameKeys(f, Put(f, k, v), q);
    } else {
      IndexAppend(f, [Field(k, v)], q);
      ConsGet(Field(k, v), [], q);
    }
  }

  /** Lookup positions depend only on the names. */
  lemma SameKeys(f: Fields, g: Fields, k: Name)
    requires |f| == |g|
    requires forall i :: 0 <= i < |f| ==> f[i].key == g[i].key
    ensures Index(f, k) == Index(g, k)
  {
    IndexFirst(f, k);
    IndexIs(g, k, Index(f, k));
  }

  // ---- positions ---------------------------------------------------------------------------

  function Size(n: Json): nat {
    match n
    case Arr(xs) => |xs|
    case Obj(f) => |f|
    case _ => 0
  }

  function Child(n: Json, i: nat): (c: Json)
    requires i < Size(n)
    ensures c < n
  {
    if n.Arr? then n.items[i] else n.fields[i].value
  }

  function SetChild(n: Json, i: nat, v: Json): (r: Json)
    requires i < Size(n)
    ensures Size(r) == Size(n) && r.Arr? == n.Arr? && r.Obj? == n.Obj?
    ensures forall j | 0 <= j < Size(n) :: Child(r, j) == if j == i then v else Child(n, j)
  {
    if n.Arr? then Arr(n.items[i := v]) else Obj(n.fields[i := n.fields[i].(value := v)])
  }

  /** Python dictionaries have no repeated keys, at any depth. */
  predicate Unique(n: Json) {
    (n.Obj? ==> Distinct(n.fields)) && forall i | 0 <= i < Size(n) :: Unique(Child(n, i))
  }

  lemma UniqueChild(n: Json, i: nat)
    requires Unique(n) && i < Size(n)
    ensures Unique(Child(n, i))
  {
  }

  predicate ValidPath(root: Json, p: seq<nat>) {
    p != [] ==> p[0] < Size(root) && ValidPath(Child(root, p[0]), p[1..])
  }

  function At(root: Json, p: seq<nat>): Json
    requires ValidPath(root, p)
  {
    if p == [] then root else At(Child(root, p[0]), p[1..])
  }

  /** The document `root` with the value at `p` replaced. */
  function PutAt(root: Json, p: seq<nat>, v: Json): (r: Json)
    requires ValidPath(root, p)
    ensures ValidPath(r, p)
    ensures At(r, p) == v
  {
    if p == [] then v else SetChild(root, p[0], PutAt(Child(root, p[0]), p[1..], v))
  }

  lemma {:induction false} PutPut(root: Json, p: seq<nat>, v: Json, w: Json)
    requires ValidPath(root, p)
    ensures PutAt(PutAt(root, p, v), p, w) == PutAt(root, p, w)
  {
    if p != [] {
      PutPut(Child(root, p[0]), p[1..], v, w);
    }
  }

  lemma {:induction false} PutSame(root: Json, p: seq<nat>)
    requires ValidPath(root, p)
    ensures PutAt(root, p, At(root, p)) == root
  {
    if p != [] {
      PutSame(Child(root, p[0]), p[1..]);
    }
  }

  lemma {:induction false} ChildPath(root: Json, p: seq<nat>, i: nat)
    requires ValidPath(root, p) && i < Size(At(root, p))
    ensures ValidPath(root, p + [i]) && At(root, p + [i]) == Child(At(root, p), i)
    ensures forall v :: PutAt(root, p + [i], v) == PutAt(root, p, SetChild(At(root, p), i, v))
  {
    if p == [] {
      assert p + [i] == [i] && [i][1..] == [];
      forall v ensures PutAt(root, [i], v) == SetChild(root, i, v) {
        assert PutAt(Child(root, i), [i][1..], v) == v;
      }
    } else {
      assert (p + [i])[1..] == p[1..] + [i];
      ChildPath(Child(root, p[0]), p[1..], i);
    }
  }

  /** Writing a child of the value just written at `p` is writing the whole value. */
  lemma PutChild(root: Json, p: seq<nat>, n: Json, i: nat, v: Json)
    requires ValidPath(root, p) && i < Size(n)
    ensures ValidPath(PutAt(root, p, n), p + [i])
    ensures PutAt(PutAt(root, p, n), p + [i], v) == PutAt(root, p, SetChild(n, i, v))
    ensures At(PutAt(root, p, n), p + [i]) == Child(n, i)
  {
    ChildPath(PutAt(root, p, n), p, i);
    PutPut(root, p, n, SetChild(n, i, v));
  }
}
