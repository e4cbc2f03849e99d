/** Definitions of a document and the `$ref`s that name them. */
module SchemaDefinitions {
  import opened Options
  import opened Json
  import opened SchemaNormalizer

  /** A definition's section, `$defs` or `definitions`, and its name. */
  type DefKey = (Name, Name)

  /** The definition that a `$ref` such as "#/$defs/Node" names. */
  function Names2(ref: string): Option<DefKey> {
    if !IsPointer(ref) then None
    else
      var ks := Split(ref[2..], '/');
      if |ks| == 2 && Parse(ks[0]) in {Defs, Definitions} then Some((Parse(ks[0]), Parse(ks[1]))) else None
  }

  function Def(root: Json, key: DefKey): Option<Json> {
    if root.Obj? && Has(root.fields, key.0) && Value(root.fields, key.0).Obj?
    then Get(Value(root.fields, key.0).fields, key.1)
    else None
  }

  predicate Slashless(s: string) {
    forall i | 0 <= i < |s| :: s[i] != '/'
  }

  lemma {:induction false} SplitWhole(s: string)
    requires Slashless(s)
    ensures Split(s, '/') == [s]
  {
    if s != "" {
      SplitWhole(s[1..]);
      assert s == [s[0]] + s[1..];
    }
  }

  lemma {:induction false} SplitAt(a: string, b: string)
    requires Slashless(a)
    ensures Split(a + "/" + b, '/') == [a] + Split(b, '/')
  {
    var s := a + "/" + b;
    if a == "" {
      assert s[0] == '/' && s[1..] == b;
    } else {
      SplitAt(a[1..], b);
      assert s[0] == a[0] && s[1..] == a[1..] + "/" + b;
      assert a == [a[0]] + a[1..];
      assert ([a[1..]] + Split(b, '/'))[1..] == Split(b, '/');
    }
  }

  /** "#/$defs/Name" and "#/definitions/Name" name the definition of that name, and resolve to it. */
  lemma PointerNames(root: Json, sec: Name, name: string, d: Fields)
    requires sec in {Defs, Definitions} && Slashless(name)
    ensures Names2("#/" + Spell(sec) + "/" + name) == Some((sec, Parse(name)))
    ensures Resolve(root, "#/" + Spell(sec) + "/" + name) == Ok(d) <==> Def(root, (sec, Parse(name))) == Some(Obj(d))
  {
    var ref := "#/" + Spell(sec) + "/" + name;
    assert ref[2..] == Spell(sec) + "/" + name;
    SectionSpelled(sec);
    SplitAt(Spell(sec), name);
    SplitWhole(name);
    if Resolve(root, ref) == Ok(d) { ResolveOnlyDef(root, ref, d); }
    ResolveDef(root, ref);
  }

  // ---- following a pointer -----------------------------------------------------------------

  /** `"/".join(keys)`. */
  function Joined(keys: seq<string>): string
    requires keys != []
  {
    if |keys| == 1 then keys[0] else keys[0] + "/" + Joined(keys[1..])
  }

  lemma {:induction false} SplitJoined(keys: seq<string>)
    requires keys != [] && forall i | 0 <= i < |keys| :: Slashless(keys[i])
    ensures Split(Joined(keys), '/') == keys
  {
    if |keys| == 1 {
      SplitWhole(keys[0]);
    } else {
      SplitJoined(keys[1..]);
      SplitAt(keys[0], Joined(keys[1..]));
    }
  }

  /** From one value to the next by the first keys, one after the other, through dictionaries. */
  predicate Trail(keys: seq<string>, nodes: seq<Json>) {
    && 0 < |nodes| <= |keys| + 1
    && forall i | 0 <= i < |nodes| - 1 ::
         nodes[i].Obj? && Has(nodes[i].fields, Parse(keys[i])) &&
         nodes[i + 1] == Value(nodes[i].fields, Parse(keys[i]))
  }

  /** How a trail ends: at the last key, at something else than a dictionary, or at a key that is not there. */
  function TrailEnd(keys: seq<string>, nodes: seq<Json>): Result<Json>
    requires Trail(keys, nodes)
    requires |nodes| == |keys| + 1 || !nodes[|nodes| - 1].Obj? ||
             !Has(nodes[|nodes| - 1].fields, Parse(keys[|nodes| - 1]))
  {
    if |nodes| == |keys| + 1 then Ok(nodes[|keys|])
    else if nodes[|nodes| - 1].Obj? then Err(KeyNotFound) else Err(NotADictionary)
  }

  lemma {:induction false} WalkTrail(keys: seq<string>, nodes: seq<Json>)
    requires Trail(keys, nodes)
    requires |nodes| == |keys| + 1 || !nodes[|nodes| - 1].Obj? ||
             !Has(nodes[|nodes| - 1].fields, Parse(keys[|nodes| - 1]))
    ensures Walk(nodes[0], keys) == TrailEnd(keys, nodes)
  {
    if |nodes| > 1 {
      WalkTrail(keys[1..], nodes[1..]);
    }
  }

  /**
   A pointer is followed key by key: it resolves to the dictionary at its end, and otherwise raises the error of the
   first step that fails.
   */
  lemma PointerFollowed(keys: seq<string>, nodes: seq<Json>)
    requires keys != [] && (forall i | 0 <= i < |keys| :: Slashless(keys[i])) && Trail(keys, nodes)
    requires |nodes| == |keys| + 1 || !nodes[|nodes| - 1].Obj? ||
             !Has(nodes[|nodes| - 1].fields, Parse(keys[|nodes| - 1]))
    ensures Resolve(nodes[0], "#/" + Joined(keys)) ==
            if |nodes| == |keys| + 1 then
              if nodes[|keys|].Obj? then Ok(nodes[|keys|].fields) else Err(NotAnObject)
            else if nodes[|nodes| - 1].Obj? then Err(KeyNotFound) else Err(NotADictionary)
  {
    PointerSplit(keys);
    WalkTrail(keys, nodes);
  }

  lemma PointerSplit(keys: seq<string>)
    requires keys != [] && forall i | 0 <= i < |keys| :: Slashless(keys[i])
    ensures IsPointer("#/" + Joined(keys)) && Split(("#/" + Joined(keys))[2..], '/') == keys
  {
    assert ("#/" + Joined(keys))[2..] == Joined(keys);
    SplitJoined(keys);
  }

  /** What does not start with "#/" is no pointer. */
  lemma NoPointer(root: Json, ref: string)
    requires |ref| < 2 || ref[0] != '#' || ref[1] != '/'
    ensures Resolve(root, ref) == Err(NotAPointer)
  {
  }

  lemma ResolveOnlyDef(root: Json, ref: string, d: Fields)
    requires Names2(ref).Some? && Resolve(root, ref) == Ok(d)
    ensures Def(root, Names2(ref).value) == Some(Obj(d))
  {
    var ks := Split(ref[2..], '/');
    assert ks[1..][1..] == [] && ks[1..][0] == ks[1];
    var sec := Value(root.fields, Parse(ks[0]));
    assert Walk(root, ks) == Walk(sec, ks[1..]) == Walk(Value(sec.fields, Parse(ks[1])), []);
  }

  lemma SectionSpelled(sec: Name)
    requires sec in {Defs, Definitions}
    ensures Slashless(Spell(sec)) && Parse(Spell(sec)) == sec
  {
    if sec == Defs {
      assert Spell(sec) == "$defs";
    } else {
      assert Spell(sec) == "definitions";
    }
  }

  lemma ResolveDef(root: Json, ref: string)
    requires Names2(ref).Some?
    ensures Def(root, Names2(ref).value).Some? && Def(root, Names2(ref).value).value.Obj? ==>
              Resolve(root, ref) == Ok(Def(root, Names2(ref).value).value.fields)
  {
    var ks := Split(ref[2..], '/');
    var key := Names2(ref).value;
    if Def(root, key).Some? {
      var sec := Value(root.fields, key.0);
      assert ks[1..][1..] == [];
      assert Walk(Def(root, key).value, []) == Ok(Def(root, key).value);
      assert Walk(sec, ks[1..]) == Ok(Def(root, key).value);
    }
  }

  /** A lookup after one member of a section was overwritten. */
  lemma DefAfter(f: Fields, sec: Name, j: nat, v: Json, key: DefKey)
    requires Has(f, sec) && j < Size(Value(f, sec))
    ensures var c := Value(f, sec);
            Def(Obj(f[Index(f, sec) := Field(sec, SetChild(c, j, v))]), key) ==
            if key.0 == sec && c.Obj? && Index(c.fields, key.1) == j then Some(v) else Def(Obj(f), key)
  {
    var c := Value(f, sec);
    var d := SetChild(c, j, v);
    var g := f[Index(f, sec) := Field(sec, d)];
    SameKeys(f, g, key.0);
    if key.0 == sec && c.Obj? { SameKeys(c.fields, d.fields, key.1); }
  }

  // ---- `$ref`s that raise ------------------------------------------------------------------

  predicate Contains(c: Json, name: Name) {
    c.Obj? && Has(c.fields, name)
  }

  /**
   A `$ref` that does not resolve in the document `f`, nor after anything the rewriter does to `f`: it is no
   pointer, or names a definition that a section lacks, or starts with a name that the root lacks while there
   is nothing to merge into the root.
   */
  predicate Raises(f: Fields, ref: string) {
    IsPointer(ref) ==>
      var ks := Split(ref[2..], '/');
      var k := Parse(ks[0]);
      if Has(f, k) then k in {Defs, Definitions} && |ks| > 1 && !Contains(Value(f, k), Parse(ks[1]))
      else !Has(f, Ref) && !Has(f, AllOf) && k !in {Required, AdditionalProperties}
  }

  lemma RaisesFails(f: Fields, ref: string)
    requires Raises(f, ref)
    ensures Resolve(Obj(f), ref).Err?
  {
    if IsPointer(ref) {
      var ks := Split(ref[2..], '/');
      var k := Parse(ks[0]);
      if Has(f, k) {
        assert Walk(Obj(f), ks) == Walk(Value(f, k), ks[1..]);
        assert ks[1..][0] == ks[1] && Walk(Value(f, k), ks[1..]).Err?;
      }
    }
  }

  /** What a step of the rewriter leaves of the root. */
  ghost predicate Rooted(f: Fields, g: Fields) {
    && (forall sec | sec in {Defs, Definitions} && Has(f, sec) ::
          Has(g, sec) && SameShape(Value(f, sec), Value(g, sec)))
    && (!Has(f, Ref) && !Has(f, AllOf) ==> forall k | Has(g, k) :: Has(f, k) || k in {Required, AdditionalProperties})
  }

  lemma RaisesKept(f: Fields, g: Fields, ref: string)
    requires Raises(f, ref) && Rooted(f, g)
    ensures Raises(g, ref)
  {
    if IsPointer(ref) {
      var ks := Split(ref[2..], '/');
      var k := Parse(ks[0]);
      if Has(f, k) {
        assert Has(g, k) && SameShape(Value(f, k), Value(g, k));
        if Value(f, k).Obj? { SameKeys(Value(f, k).fields, Value(g, k).fields, Parse(ks[1])); }
      }
    }
  }

  /** Overwriting a member of a section keeps the shape of everything. */
  lemma RootedMember(f: Fields, sec: Name, j: nat, v: Json)
    requires Has(f, sec) && j < Size(Value(f, sec))
    ensures Rooted(f, f[Index(f, sec) := Field(sec, SetChild(Value(f, sec), j, v))])
  {
    var g := f[Index(f, sec) := Field(sec, SetChild(Value(f, sec), j, v))];
    forall k ensures Index(f, k) == Index(g, k) { SameKeys(f, g, k); }
  }

  lemma RootedField(f: Fields, i: nat, v: Json)
    requires i < |f| && f[i].key !in {Defs, Definitions}
    ensures Rooted(f, f[i := f[i].(value := v)])
  {
    var g := f[i := f[i].(value := v)];
    forall k ensures Index(f, k) == Index(g, k) { SameKeys(f, g, k); }
  }

  /** The first field is the only one a definition lookup reads under its section. */
  lemma DefOfFields(f: Fields, g: Fields, key: DefKey)
    requires Get(f, key.0) == Get(g, key.0)
    ensures Def(Obj(f), key) == Def(Obj(g), key)
  {
  }
}

/**
 Why the rewriter halts: a weight that counts every visited node and, for every `$ref` that can be
 inlined, the weight of its target. Inlining and collapsing make it strictly smaller.
 */
module SchemaTermination {
  import opened Options
  import opened Json
  import opened SchemaNormalizer
  import opened SchemaDefinitions
  import opened SchemaNormalForm

  /**
   Weights of the definitions, which of them a rewrite may inline, and the `$ref`s that raise instead; inlining
   anything else costs `unresolved`.
   */
  datatype Weights = Weights(of: map<DefKey, nat>, targets: set<DefKey>, broken: set<string>, unresolved: nat)

  /** Cost of inlining what the string under `$ref` names. */
  function Cost(w: Weights, ref: string): nat {
    var key := Names2(ref);
    if ref in w.broken then 0
    else if key.Some? && key.value in w.of && key.value in w.targets then 1 + w.of[key.value]
    else w.unresolved
  }

  function RefCost(w: Weights, f: Fields): nat {
    if StrRef(f).None? then 0 else Cost(w, StrRef(f).value)
  }

  /** A `$ref` that is the only member of an `allOf` moves into the node `g` that holds it. */
  function MemberCost(w: Weights, g: Fields): nat {
    if SingleAllOf(g) && Member(g).Obj? then RefCost(w, Member(g).fields) else 0
  }

  /** There it is inlined if the node has anything else. */
  function SoleCost(w: Weights, g: Fields): nat {
    if |g| > 1 then MemberCost(w, g) else 0
  }

  function Weight(w: Weights, n: Json): (r: nat)
    ensures r >= 1
    decreases n, 1
  {
    match n
    case Obj(f) =>
      var g := Drop(f, {Default});
      1 + FieldsWeight(w, f) + (if Inlines(g) then RefCost(w, f) else 0) + SoleCost(w, g)
    case Arr(xs) => 1 + ItemsWeight(w, xs)
    case _ => 1
  }

  /** What a definition weighs where it is inlined: there it always has siblings. */
  function InlinedWeight(w: Weights, f: Fields): nat {
    var g := Drop(f, {Default});
    1 + FieldsWeight(w, f) + (if Inlines(g) then RefCost(w, f) else 0) + MemberCost(w, g)
  }

  function FieldsWeight(w: Weights, f: Fields): nat
    decreases f, 0
  {
    if f == [] then 0 else FieldWeight(w, f[0]) + FieldsWeight(w, f[1..])
  }

  function FieldWeight(w: Weights, x: Field): nat
    decreases x, 0
  {
    match x.key
    case Items => Weight(w, x.value)
    case Properties | Defs | Definitions | AnyOf | OneOf | AllOf => MembersWeight(w, x.value)
    case _ => 0
  }

  function MembersWeight(w: Weights, v: Json): nat
    decreases v, 0
  {
    match v
    case Obj(f) => ValuesWeight(w, f)
    case Arr(xs) => ItemsWeight(w, xs)
    case _ => 0
  }

  function ValuesWeight(w: Weights, f: Fields): nat
    decreases f, 0
  {
    if f == [] then 0 else ValueWeight(w, f[0]) + ValuesWeight(w, f[1..])
  }

  function ValueWeight(w: Weights, x: Field): nat
    decreases x, 0
  {
    Weight(w, x.value)
  }

  function ItemsWeight(w: Weights, xs: seq<Json>): nat
    decreases xs, 0
  {
    if xs == [] then 0 else Weight(w, xs[0]) + ItemsWeight(w, xs[1..])
  }

  // ---- the weight of lists of fields -------------------------------------------------------

  lemma {:induction false} WeightAppend(w: Weights, f: Fields, g: Fields)
    ensures FieldsWeight(w, f + g) == FieldsWeight(w, f) + FieldsWeight(w, g)
  {
    if f == [] {
      assert f + g == g;
    } else {
      WeightAppend(w, f[1..], g);
      assert (f + g)[1..] == f[1..] + g;
    }
  }

  lemma {:induction false} WeightDrop(w: Weights, f: Fields, ks: set<Name>)
    ensures FieldsWeight(w, Drop(f, ks)) <= FieldsWeight(w, f)
  {
    if f != [] {
      WeightDrop(w, f[1..], ks);
      if f[0].key !in ks { assert Drop(f, ks)[1..] == Drop(f[1..], ks); }
    }
  }

  /** Dropping a keyword takes at least the weight of its first field away. */
  lemma WeightDropOne(w: Weights, f: Fields, k: Name)
    requires Has(f, k)
    ensures FieldsWeight(w, Drop(f, {k})) + FieldWeight(w, f[Index(f, k)]) <= FieldsWeight(w, f)
  {
    var i := Index(f, k);
    var a, b := f[..i], f[i + 1..];
    assert f == a + ([f[i]] + b);
    WeightAppend(w, a, [f[i]] + b);
    WeightAppend(w, [f[i]], b);
    assert [f[i]][1..] == [];
    DropAppend(a, [f[i]] + b, {k});
    DropAppend([f[i]], b, {k});
    assert Drop([f[i]], {k}) == Drop([], {k}) == [];
    WeightDrop(w, a, {k});
    WeightDrop(w, b, {k});
    WeightAppend(w, Drop(a, {k}), [] + Drop(b, {k}));
    assert [] + Drop(b, {k}) == Drop(b, {k});
  }

  lemma WeightReplace(w: Weights, f: Fields, i: nat, x: Field)
    requires i < |f|
    ensures FieldsWeight(w, f[i := x]) == FieldsWeight(w, f) - FieldWeight(w, f[i]) + FieldWeight(w, x)
  {
    var a, b := f[..i], f[i + 1..];
    assert f == a + ([f[i]] + b) && f[i := x] == a + ([x] + b);
    WeightAppend(w, a, [f[i]] + b);
    WeightAppend(w, [f[i]], b);
    WeightAppend(w, a, [x] + b);
    WeightAppend(w, [x], b);
    assert [f[i]][1..] == [] && [x][1..] == [];
  }

  lemma WeightShaped(w: Weights, f: Fields)
    ensures FieldsWeight(w, Shaped(f)) == FieldsWeight(w, f)
  {
    var d := SetDefaults(f);
    var x := Field(AdditionalProperties, Bool(false));
    WeightAppend(w, f, [x]);
    assert [x][1..] == [];
    if Has(d, Properties) && Value(d, Properties).Obj? {
      var y := Field(Required, Arr(Names(Value(d, Properties).fields)));
      if Has(d, Required) {
        WeightReplace(w, d, Index(d, Required), y);
      } else {
        WeightAppend(w, d, [y]);
        assert [y][1..] == [];
      }
    }
  }

  /** Any visited subschema weighs less than what holds it. */
  lemma {:induction false} FieldBelow(w: Weights, f: Fields, i: nat)
    requires i < |f|
    ensures FieldWeight(w, f[i]) <= FieldsWeight(w, f)
  {
    if i > 0 {
      FieldBelow(w, f[1..], i - 1);
    }
  }

  lemma {:induction false} ChildBelow(w: Weights, c: Json, i: nat)
    requires i < Size(c)
    ensures Weight(w, Child(c, i)) <= MembersWeight(w, c)
  {
    if c.Arr? { ItemBelow(w, c.items, i); } else { ValueBelow(w, c.fields, i); }
  }

  lemma {:induction false} ItemBelow(w: Weights, xs: seq<Json>, i: nat)
    requires i < |xs|
    ensures Weight(w, xs[i]) <= ItemsWeight(w, xs)
  {
    if i > 0 { ItemBelow(w, xs[1..], i - 1); }
  }

  lemma {:induction false} ValueBelow(w: Weights, f: Fields, i: nat)
    requires i < |f|
    ensures Weight(w, f[i].value) <= ValuesWeight(w, f)
  {
    if i > 0 { ValueBelow(w, f[1..], i - 1); }
  }

  /** Replacing a member by one that is not heavier does not make the container heavier. */
  lemma ChildLighter(w: Weights, c: Json, i: nat, v: Json)
    requires i < Size(c) && Weight(w, v) <= Weight(w, Child(c, i))
    ensures MembersWeight(w, SetChild(c, i, v)) <= MembersWeight(w, c)
  {
    if c.Arr? { ItemLighter(w, c.items, i, v); } else { ValueLighter(w, c.fields, i, v); }
  }

  lemma {:induction false} ItemLighter(w: Weights, xs: seq<Json>, i: nat, v: Json)
    requires i < |xs| && Weight(w, v) <= Weight(w, xs[i])
    ensures ItemsWeight(w, xs[i := v]) <= ItemsWeight(w, xs)
  {
    if i == 0 {
      assert xs[i := v][1..] == xs[1..];
    } else {
      ItemLighter(w, xs[1..], i - 1, v);
      assert xs[i := v][1..] == xs[1..][i - 1 := v];
    }
  }

  lemma {:induction false} ValueLighter(w: Weights, f: Fields, i: nat, v: Json)
    requires i < |f| && Weight(w, v) <= Weight(w, f[i].value)
    ensures ValuesWeight(w, f[i := f[i].(value := v)]) <= ValuesWeight(w, f)
  {
    var g := f[i := f[i].(value := v)];
    if i == 0 {
      assert g[1..] == f[1..];
    } else {
      ValueLighter(w, f[1..], i - 1, v);
      assert g[1..] == f[1..][i - 1 := f[i].(value := v)];
    }
  }

  // ---- the two rewrites that do not descend ------------------------------------------------

  lemma StrRefDropped(f: Fields)
    ensures StrRef(Drop(f, {Default})) == StrRef(f)
  {
    DropGet(f, {Default}, Ref);
  }

  /** The cost of a sole member depends on the `allOf` alone. */
  lemma MemberCostKept(w: Weights, f: Fields, g: Fields)
    requires Get(f, AllOf) == Get(g, AllOf)
    ensures MemberCost(w, f) == MemberCost(w, g)
  {
  }

  lemma MergedMemberCost(w: Weights, g: Fields, target: Fields)
    ensures MemberCost(w, Drop(Inlined(g, target), {Default})) <=
            MemberCost(w, g) + MemberCost(w, Drop(target, {Default}))
  {
    var m := Inlined(g, target);
    DropGet(m, {Default}, AllOf);
    DropGet(Merge(g, target), {Ref}, AllOf);
    MergeGet(g, target, AllOf);
    DropGet(target, {Default}, AllOf);
    if Has(g, AllOf) {
      MemberCostKept(w, Drop(m, {Default}), g);
    } else {
      MemberCostKept(w, Drop(m, {Default}), Drop(target, {Default}));
    }
  }

  /** Inlining a definition makes the node strictly lighter. */
  lemma InlineLighter(w: Weights, f: Fields, target: Fields)
    requires var g := Drop(f, {Default}); Inlines(g) && 1 + InlinedWeight(w, target) <= RefCost(w, g)
    ensures Weight(w, Obj(Inlined(Drop(f, {Default}), target))) < Weight(w, Obj(f))
  {
    var g := Drop(f, {Default});
    var rest := Drop(target, KeySet(g));
    var m := Inlined(g, target);
    StrRefDropped(f);
    WeightDrop(w, f, {Default});
    WeightDrop(w, target, KeySet(g));
    WeightAppend(w, g, rest);
    WeightDrop(w, Merge(g, target), {Ref});
    DropGet(Merge(g, target), {Ref}, Ref);
    StrRefDropped(m);
    MergedMemberCost(w, g, target);
  }

  /** Collapsing a single `allOf` makes the node strictly lighter. */
  lemma CollapseLighter(w: Weights, h: Fields)
    requires SingleAllOf(h) && Member(h).Obj? && StrRef(h).None?
    ensures Weight(w, Obj(Collapsed(h, Member(h).fields))) <= Load(w, h)
  {
    var x := Member(h).fields;
    var m := Collapsed(h, x);
    CollapsedFields(w, h);
    DropGet(Merge(h, x), {AllOf}, AllOf);
    DropGet(m, {Default}, AllOf);
    MergeGet(h, x, Ref);
    DropGet(Merge(h, x), {AllOf}, Ref);
    StrRefDropped(m);
    if |h| == 1 { BareCollapse(h); }
  }

  lemma CollapsedFields(w: Weights, h: Fields)
    requires SingleAllOf(h) && Member(h).Obj?
    ensures FieldsWeight(w, Collapsed(h, Member(h).fields)) + Weight(w, Member(h)) <=
            FieldsWeight(w, h) + FieldsWeight(w, Member(h).fields)
  {
    var x := Member(h).fields;
    var rest := Drop(x, KeySet(h));
    DropAppend(h, rest, {AllOf});
    WeightAppend(w, Drop(h, {AllOf}), Drop(rest, {AllOf}));
    WeightDrop(w, x, KeySet(h));
    WeightDrop(w, rest, {AllOf});
    WeightDropOne(w, h, AllOf);
    var v := Value(h, AllOf);
    assert v.items == [Obj(x)] && v.items[1..] == [];
    assert ItemsWeight(w, v.items) == Weight(w, Obj(x)) + ItemsWeight(w, []);
  }

  /** Without siblings the node becomes its member, and inlines only if the member did. */
  lemma BareCollapse(h: Fields)
    requires SingleAllOf(h) && Member(h).Obj? && |h| == 1
    ensures Inlines(Drop(Collapsed(h, Member(h).fields), {Default})) ==> Inlines(Drop(Member(h).fields, {Default}))
  {
    var x := Member(h).fields;
    var H := KeySet(h);
    assert h[0].key == AllOf;
    assert H == {AllOf};
    DropAppend(h, Drop(x, H), {AllOf});
    assert Drop(h, {AllOf}) == Drop(h[1..], {AllOf}) == [];
    DropDrop(x, H, {AllOf});
    assert H + {AllOf} == {AllOf};
    assert Collapsed(h, x) == Drop(x, {AllOf});
    DropDrop(x, {AllOf}, {Default});
    DropDrop(x, {Default}, {AllOf});
    assert {AllOf} + {Default} == {Default} + {AllOf};
    DropGet(Drop(x, {Default}), {AllOf}, Ref);
  }

  // ---- what a dictionary still has to spend ------------------------------------------------

  /** The weight of a dictionary that has no `default` and does not inline, without itself. */
  function Load(w: Weights, f: Fields): nat {
    FieldsWeight(w, f) + SoleCost(w, f)
  }

  lemma LoadDropped(w: Weights, f: Fields)
    ensures 1 + Load(w, Drop(f, {Default})) <= Weight(w, Obj(f))
  {
    WeightDrop(w, f, {Default});
  }

  lemma LoadShaped(w: Weights, g: Fields)
    ensures Load(w, Shaped(g)) == Load(w, g)
  {
    WeightShaped(w, g);
    ShapedGet(g, AllOf);
    MemberCostKept(w, g, Shaped(g));
    if SingleAllOf(g) && |g| == 1 {
      assert g[0].key == AllOf;
      assert Shaped(g) == g;
    }
  }

  /** Rewriting under one keyword does not touch the cost of a sole member. */
  lemma KeyKeepsSole(w: Weights, root: Json, p: seq<nat>, f: Fields, k: Name, limit: nat)
    requires ValidPath(root, p) && NormKey(root, p, f, k, limit).Ok? && (k == AllOf ==> !SingleAllOf(f))
    ensures SoleCost(w, NormKey(root, p, f, k, limit).value) == SoleCost(w, f)
  {
    var g := NormKey(root, p, f, k, limit).value;
    KeyFrame(root, p, f, k, limit);
    KeyFrameGet(root, p, f, k, limit, AllOf);
    if k != AllOf { MemberCostKept(w, f, g); }
  }

  // ---- halting below the root --------------------------------------------------------------

  predicate Good(w: Weights, root: Json, key: DefKey)
    requires key in w.of
  {
    var d := Def(root, key);
    && d.Some? && d.value.Obj? && Weight(w, d.value) <= w.of[key]
    && (key in w.targets ==> InlinedWeight(w, d.value.fields) <= w.of[key])
  }

  /** Whatever is written at `p`, definitions lighter than `b` stay within their weights and broken `$ref`s broken. */
  ghost predicate Far(w: Weights, root: Json, p: seq<nat>, b: nat) {
    && ValidPath(root, p)
    && (forall key, v | key in w.of && w.of[key] < b :: Good(w, PutAt(root, p, v), key))
    && (forall ref, v | ref in w.broken :: Resolve(PutAt(root, p, v), ref).Err?)
  }

  lemma FarChild(w: Weights, root: Json, p: seq<nat>, b: nat, n: Json, i: nat)
    requires Far(w, root, p, b) && i < Size(n)
    ensures Far(w, PutAt(root, p, n), p + [i], b)
  {
    PutChild(root, p, n, i, n);
    forall key, v | key in w.of && w.of[key] < b
      ensures Good(w, PutAt(PutAt(root, p, n), p + [i], v), key)
    {
      PutChild(root, p, n, i, v);
    }
    forall ref, v | ref in w.broken ensures Resolve(PutAt(PutAt(root, p, n), p + [i], v), ref).Err? {
      PutChild(root, p, n, i, v);
    }
  }

  /** What the rewriter may return for a node of weight `a`. */
  predicate Fine(w: Weights, r: Result<Json>, n: Json) {
    && r != Err(RecursionLimit)
    && (r.Ok? ==> Weight(w, r.value) <= Weight(w, n) && r.value.Obj? == n.Obj?)
  }

  lemma {:induction false} NodeHalts(w: Weights, root: Json, p: seq<nat>, b: nat, n: Json, limit: nat)
    requires Far(w, root, p, b) && Weight(w, n) <= b <= w.unresolved && Weight(w, n) < w.unresolved
    requires Weight(w, n) <= limit
    ensures Fine(w, NormNode(root, p, n, limit), n)
    decreases limit, 0
  {
    if n.Obj? {
      DictHalts(w, root, p, b, n.fields, limit - 1);
    } else if n.Arr? {
      MembersHalt(w, root, p, b, n, 0, limit - 1);
      if NormMembers(root, p, n, 0, limit - 1).Ok? { MembersShape(root, p, n, 0, limit - 1); }
    }
  }

  lemma {:induction false} MembersHalt(w: Weights, root: Json, p: seq<nat>, b: nat, c: Json, i: nat, limit: nat)
    requires Far(w, root, p, b) && MembersWeight(w, c) <= b <= w.unresolved && MembersWeight(w, c) < w.unresolved
    requires MembersWeight(w, c) <= limit && i <= Size(c)
    ensures FineMembers(w, NormMembers(root, p, c, i, limit), MembersWeight(w, c))
    decreases limit, 1, Size(c) - i
  {
    if i < Size(c) {
      PutChild(root, p, c, i, Child(c, i));
      ChildHalts(w, root, p, b, c, i, limit);
      var v := NormNode(PutAt(root, p, c), p + [i], Child(c, i), limit);
      if v.Ok? {
        MembersHalt(w, root, p, b, SetChild(c, i, v.value), i + 1, limit);
        MembersStep(root, p, c, i, limit, v.value);
      } else {
        MembersStop(root, p, c, i, limit);
      }
    }
  }

  predicate FineMembers(w: Weights, r: Result<Json>, a: nat) {
    r != Err(RecursionLimit) && (r.Ok? ==> MembersWeight(w, r.value) <= a)
  }

  lemma {:induction false} ChildHalts(w: Weights, root: Json, p: seq<nat>, b: nat, c: Json, i: nat, limit: nat)
    requires Far(w, root, p, b) && MembersWeight(w, c) <= b <= w.unresolved && MembersWeight(w, c) < w.unresolved
    requires MembersWeight(w, c) <= limit && i < Size(c) && ValidPath(PutAt(root, p, c), p + [i])
    ensures var r := NormNode(PutAt(root, p, c), p + [i], Child(c, i), limit);
            r != Err(RecursionLimit) && (r.Ok? ==> MembersWeight(w, SetChild(c, i, r.value)) <= MembersWeight(w, c))
    decreases limit, 1, 0
  {
    ChildBelow(w, c, i);
    FarChild(w, root, p, b, c, i);
    NodeHalts(w, PutAt(root, p, c), p + [i], b, Child(c, i), limit);
    var r := NormNode(PutAt(root, p, c), p + [i], Child(c, i), limit);
    if r.Ok? { ChildLighter(w, c, i, r.value); }
  }

  lemma FieldLighter(w: Weights, f: Fields, k: Name, v: Json)
    requires Has(f, k) && k in SUBSCHEMA_KEYS - {Items} && (k == AllOf ==> !SingleAllOf(f))
    requires MembersWeight(w, v) <= MembersWeight(w, Value(f, k)) && SameShape(v, Value(f, k))
    ensures FieldsWeight(w, f[Index(f, k) := Field(k, v)]) <= FieldsWeight(w, f)
  {
    WeightReplace(w, f, Index(f, k), Field(k, v));
  }

  /** One keyword, given that definitions are out of reach of the place where its value sits. */
  lemma {:induction false} KeyHalts(w: Weights, root: Json, p: seq<nat>, b: nat, f: Fields, k: Name, limit: nat)
    requires ValidPath(root, p) && k in SUBSCHEMA_KEYS && (k == AllOf ==> !SingleAllOf(f))
    requires Has(f, k) ==> Far(w, PutAt(root, p, Obj(f)), p + [Index(f, k)], b)
    requires FieldsWeight(w, f) <= b <= w.unresolved && FieldsWeight(w, f) < w.unresolved
    requires FieldsWeight(w, f) <= limit
    ensures var r := NormKey(root, p, f, k, limit);
            r != Err(RecursionLimit) && (r.Ok? ==> FieldsWeight(w, r.value) <= FieldsWeight(w, f))
    decreases limit, 2, 0
  {
    if Has(f, k) {
      var i, v := Index(f, k), Value(f, k);
      PutChild(root, p, Obj(f), i, v);
      FieldBelow(w, f, i);
      if k == Items && !v.Null? {
        NodeHalts(w, PutAt(root, p, Obj(f)), p + [i], b, v, limit);
        var r := NormNode(PutAt(root, p, Obj(f)), p + [i], v, limit);
        if r.Ok? { WeightReplace(w, f, i, Field(k, r.value)); }
      } else if k != Items && VisitsMembers(k, v) {
        MembersKeyHalts(w, PutAt(root, p, Obj(f)), p + [i], b, f, k, limit);
      }
    }
  }

  lemma {:induction false} MembersKeyHalts(w: Weights, root: Json, p: seq<nat>, b: nat, f: Fields, k: Name, limit: nat)
    requires Has(f, k) && k in SUBSCHEMA_KEYS - {Items} && (k == AllOf ==> !SingleAllOf(f))
    requires Far(w, root, p, b) && FieldsWeight(w, f) <= b <= w.unresolved
    requires FieldsWeight(w, f) < w.unresolved && FieldsWeight(w, f) <= limit
    ensures var r := NormMembers(root, p, Value(f, k), 0, limit);
            && r != Err(RecursionLimit)
            && (r.Ok? ==> FieldsWeight(w, f[Index(f, k) := Field(k, r.value)]) <= FieldsWeight(w, f))
    decreases limit, 1, Size(Value(f, k)) + 1
  {
    var v := Value(f, k);
    FieldBelow(w, f, Index(f, k));
    MembersHalt(w, root, p, b, v, 0, limit);
    var r := NormMembers(root, p, v, 0, limit);
    if r.Ok? {
      MembersShape(root, p, v, 0, limit);
      FieldLighter(w, f, k, r.value);
    }
  }

  lemma {:induction false} InnerKeyHalts(w: Weights, root: Json, p: seq<nat>, b: nat, f: Fields, k: Name, limit: nat)
    requires Far(w, root, p, b) && k in SUBSCHEMA_KEYS && (k == AllOf ==> !SingleAllOf(f))
    requires Load(w, f) <= b <= w.unresolved && Load(w, f) < w.unresolved && Load(w, f) <= limit
    ensures var r := NormKey(root, p, f, k, limit);
            && r != Err(RecursionLimit)
            && (r.Ok? ==> Load(w, r.value) <= Load(w, f))
    decreases limit, 2, 1
  {
    if Has(f, k) { FarChild(w, root, p, b, Obj(f), Index(f, k)); }
    KeyHalts(w, root, p, b, f, k, limit);
    if NormKey(root, p, f, k, limit).Ok? { KeyKeepsSole(w, root, p, f, k, limit); }
  }

  lemma ResolveNeverExhausts(doc: Json, ref: string)
    ensures Resolve(doc, ref) != Err(RecursionLimit)
  {
    if IsPointer(ref) { WalkNeverExhausts(doc, Split(ref[2..], '/')); }
  }

  lemma {:induction false} WalkNeverExhausts(node: Json, keys: seq<string>)
    ensures Walk(node, keys) != Err(RecursionLimit)
    decreases |keys|
  {
    if keys != [] && node.Obj? && Has(node.fields, Parse(keys[0])) {
      WalkNeverExhausts(Value(node.fields, Parse(keys[0])), keys[1..]);
    }
  }

  lemma {:induction false} DictHalts(w: Weights, root: Json, p: seq<nat>, b: nat, f: Fields, limit: nat)
    requires Far(w, root, p, b) && Weight(w, Obj(f)) <= b <= w.unresolved && Weight(w, Obj(f)) < w.unresolved
    requires Weight(w, Obj(f)) <= limit + 1
    ensures Fine(w, NormDict(root, p, f, limit), Obj(f))
    decreases limit, 6
  {
    var g := Drop(f, {Default});
    StrRefDropped(f);
    if Inlines(g) {
      var ref := StrRef(g).value;
      var key := Names2(ref);
      assert RefCost(w, g) == RefCost(w, f);
      var doc := PutAt(root, p, Obj(g));
      if ref in w.broken {
        assert Resolve(doc, ref).Err?;
        ResolveNeverExhausts(doc, ref);
      } else {
        assert key.Some? && key.value in w.of && key.value in w.targets && w.of[key.value] < b;
        assert Good(w, doc, key.value);
        ResolveDef(doc, ref);
        var target := Def(doc, key.value).value.fields;
        InlineLighter(w, f, target);
        NodeHalts(w, root, p, b, Obj(Inlined(g, target)), limit);
      }
    } else {
      LoadDropped(w, f);
      DropGet(f, {Default}, Default);
      PlainHalts(w, root, p, b, g, limit);
    }
  }

  lemma {:induction false} PlainHalts(w: Weights, root: Json, p: seq<nat>, b: nat, g: Fields, limit: nat)
    requires Far(w, root, p, b) && !Inlines(g) && !Has(g, Default)
    requires Load(w, g) <= limit && Load(w, g) < b <= w.unresolved
    ensures Fine1(w, NormPlain(root, p, g, limit), Load(w, g))
    decreases limit, 5
  {
    var s := Shaped(g);
    LoadShaped(w, g);
    ShapedTop(g);
    InnerKeyHalts(w, root, p, b, s, Properties, limit);
    var f1 := NormKey(root, p, s, Properties, limit);
    if f1.Ok? {
      InnerKeyHalts(w, root, p, b, f1.value, Items, limit);
      var f2 := NormKey(root, p, f1.value, Items, limit);
      if f2.Ok? {
        InnerKeyHalts(w, root, p, b, f2.value, Defs, limit);
        var f3 := NormKey(root, p, f2.value, Defs, limit);
        if f3.Ok? {
          InnerKeyHalts(w, root, p, b, f3.value, Definitions, limit);
          var h := NormKey(root, p, f3.value, Definitions, limit);
          if h.Ok? {
            FirstKeysNormal(root, p, s, limit);
            TailHalts(w, root, p, b, h.value, limit);
          }
        }
      }
    }
  }

  predicate Fine1(w: Weights, r: Result<Json>, a: nat) {
    && r != Err(RecursionLimit)
    && (r.Ok? ==> r.value.Obj? && Weight(w, r.value) <= 1 + a)
  }

  lemma {:induction false} TailHalts(w: Weights, root: Json, p: seq<nat>, b: nat, h: Fields, limit: nat)
    requires Far(w, root, p, b) && Shapely(h) && Done(h, FIRST_KEYS, limit)
    requires Load(w, h) <= limit && Load(w, h) < b <= w.unresolved
    ensures Fine1(w, NormTail(root, p, h, limit), Load(w, h))
    decreases limit, 4
  {
    if SingleAllOf(h) {
      if Member(h).Obj? {
        NoRefBesideAllOf(h);
        CollapseLighter(w, h);
        NodeHalts(w, root, p, b, Obj(Collapsed(h, Member(h).fields)), limit);
      }
    } else {
      InnerKeyHalts(w, root, p, b, h, AnyOf, limit);
      var f1 := NormKey(root, p, h, AnyOf, limit);
      if f1.Ok? {
        KeyFrameGet(root, p, h, AnyOf, limit, AllOf);
        InnerKeyHalts(w, root, p, b, f1.value, OneOf, limit);
        var f2 := NormKey(root, p, f1.value, OneOf, limit);
        if f2.Ok? {
          KeyFrameGet(root, p, f1.value, OneOf, limit, AllOf);
          InnerKeyHalts(w, root, p, b, f2.value, AllOf, limit);
          var r := NormKey(root, p, f2.value, AllOf, limit);
          if r.Ok? {
            LastKeysNormal(root, p, h, limit);
            NormalWeight(w, r.value);
          }
        }
      }
    }
  }

  /** A node that was not inlined has no string `$ref` beside an `allOf`. */
  lemma NoRefBesideAllOf(h: Fields)
    requires !Inlines(h) && Has(h, AllOf)
    ensures StrRef(h).None?
  {
    assert Has(h, Ref) ==> |h| > 1;
  }

  lemma NormalWeight(w: Weights, r: Fields)
    requires TopNormal(r)
    ensures Weight(w, Obj(r)) == 1 + FieldsWeight(w, r) == InlinedWeight(w, r)
  {
    TopIsFixed(r);
  }

  // ---- halting at the root -----------------------------------------------------------------

  predicate AllRaise(w: Weights, f: Fields) {
    forall ref | ref in w.broken :: Raises(f, ref)
  }

  lemma AllRaiseKept(w: Weights, f: Fields, g: Fields)
    requires AllRaise(w, f) && (w.broken != {} ==> Rooted(f, g))
    ensures AllRaise(w, g)
  {
    forall ref | ref in w.broken ensures Raises(g, ref) { RaisesKept(f, g, ref); }
  }

  lemma AllFail(w: Weights, f: Fields, g: Fields)
    requires AllRaise(w, f) && Rooted(f, g)
    ensures forall ref | ref in w.broken :: Resolve(Obj(g), ref).Err?
  {
    forall ref | ref in w.broken ensures Resolve(Obj(g), ref).Err? {
      RaisesKept(f, g, ref);
      RaisesFails(g, ref);
    }
  }

  /** The certificate of acyclicity: every definition stays within its weight, everything resolves or raises. */
  predicate Weighed(w: Weights, f: Fields) {
    && (forall key | key in w.of :: key.0 in {Defs, Definitions} && Good(w, Obj(f), key) && w.of[key] < w.unresolved)
    && Weight(w, Obj(f)) < w.unresolved && AllRaise(w, f)
  }

  lemma WeighedKept(w: Weights, f: Fields, g: Fields)
    requires Weighed(w, f) && Weight(w, Obj(g)) < w.unresolved
    requires Has(f, Defs) ==> Get(g, Defs) == Get(f, Defs)
    requires Has(f, Definitions) ==> Get(g, Definitions) == Get(f, Definitions)
    requires w.broken != {} ==> Rooted(f, g)
    ensures Weighed(w, g)
  {
    AllRaiseKept(w, f, g);
    forall key | key in w.of ensures key.0 in {Defs, Definitions} && Good(w, Obj(g), key) {
      assert Good(w, Obj(f), key);
      DefOfFields(f, g, key);
    }
  }

  /** Outside the two sections of definitions, nothing written disturbs a definition. */
  lemma RootFar(w: Weights, f: Fields, k: Name)
    requires Weighed(w, f) && Has(f, k) && k !in {Defs, Definitions}
    ensures Far(w, Obj(f), [Index(f, k)], w.unresolved)
  {
    var i := Index(f, k);
    PutChild(Obj(f), [], Obj(f), i, Null);
    assert [] + [i] == [i];
    forall key, v | key in w.of && w.of[key] < w.unresolved
      ensures Good(w, PutAt(Obj(f), [i], v), key)
    {
      PutChild(Obj(f), [], Obj(f), i, v);
      var g := f[i := f[i].(value := v)];
      assert PutAt(Obj(f), [i], v) == Obj(g);
      SameKeys(f, g, key.0);
      assert Get(g, key.0) == Get(f, key.0);
      assert Good(w, Obj(f), key);
      DefOfFields(f, g, key);
    }
    forall ref, v | ref in w.broken ensures Resolve(PutAt(Obj(f), [i], v), ref).Err? { FieldRaises(w, f, i, v, ref); }
  }

  lemma FieldRaises(w: Weights, f: Fields, i: nat, v: Json, ref: string)
    requires AllRaise(w, f) && ref in w.broken && i < |f| && f[i].key !in {Defs, Definitions} && ValidPath(Obj(f), [i])
    ensures Resolve(PutAt(Obj(f), [i], v), ref).Err?
  {
    PutChild(Obj(f), [], Obj(f), i, v);
    assert [] + [i] == [i];
    RootedField(f, i, v);
    AllFail(w, f, f[i := f[i].(value := v)]);
  }

  /** A definition being rewritten is at least as heavy as anything its own `$ref`s can name. */
  lemma DefFar(w: Weights, f: Fields, sec: Name, j: nat)
    requires Weighed(w, f) && Has(f, sec) && sec in {Defs, Definitions} && j < Size(Value(f, sec))
    ensures Far(w, Obj(f), [Index(f, sec)] + [j], Weight(w, Child(Value(f, sec), j)))
  {
    var i, c := Index(f, sec), Value(f, sec);
    var b := Weight(w, Child(c, j));
    PutChild(Obj(f), [], Obj(f), i, c);
    assert [] + [i] == [i];
    assert SetChild(Obj(f), i, c) == Obj(f);
    forall v
      ensures ValidPath(Obj(f), [i] + [j])
      ensures PutAt(Obj(f), [i] + [j], v) == Obj(f[i := Field(sec, SetChild(c, j, v))])
    {
      PutChild(Obj(f), [i], c, j, v);
      PutChild(Obj(f), [], Obj(f), i, SetChild(c, j, v));
    }
    forall key, v | key in w.of && w.of[key] < b
      ensures Good(w, PutAt(Obj(f), [i] + [j], v), key)
    {
      var g := f[i := Field(sec, SetChild(c, j, v))];
      assert Good(w, Obj(f), key);
      DefAfter(f, sec, j, v, key);
    }
    forall ref, v | ref in w.broken ensures Resolve(PutAt(Obj(f), [i] + [j], v), ref).Err? {
      RootedMember(f, sec, j, v);
      AllFail(w, f, f[i := Field(sec, SetChild(c, j, v))]);
    }
  }

  /** The definitions themselves, rewritten in place one after the other. */
  lemma {:induction false} DefsHalt(w: Weights, f: Fields, sec: Name, c: Json, j: nat, limit: nat)
    requires Has(f, sec) && sec in {Defs, Definitions} && j <= Size(c)
    requires Weighed(w, f[Index(f, sec) := Field(sec, c)]) && MembersWeight(w, c) <= limit
    ensures var i := Index(f, sec);
            ValidPath(Obj(f), [i]) &&
            var r := NormMembers(Obj(f), [i], c, j, limit);
            && r != Err(RecursionLimit)
            && (r.Ok? ==> Weighed(w, f[i := Field(sec, r.value)]) && MembersWeight(w, r.value) <= MembersWeight(w, c))
    decreases Size(c) - j
  {
    var i := Index(f, sec);
    PutChild(Obj(f), [], Obj(f), i, c);
    assert [] + [i] == [i];
    if j < Size(c) {
      var f' := f[i := Field(sec, c)];
      SameKeys(f, f', sec);
      PutChild(Obj(f), [i], c, j, Child(c, j));
      DefHalts(w, f', sec, j, limit);
      var v := NormNode(Obj(f'), [i] + [j], Child(c, j), limit);
      if v.Ok? {
        assert f'[i := Field(sec, SetChild(c, j, v.value))] == f[i := Field(sec, SetChild(c, j, v.value))];
        DefsHalt(w, f, sec, SetChild(c, j, v.value), j + 1, limit);
      }
    }
  }

  /** One definition of the document. */
  lemma DefHalts(w: Weights, f: Fields, sec: Name, j: nat, limit: nat)
    requires Weighed(w, f) && Has(f, sec) && sec in {Defs, Definitions} && j < Size(Value(f, sec))
    requires MembersWeight(w, Value(f, sec)) <= limit
    ensures var i, c := Index(f, sec), Value(f, sec);
            && ValidPath(Obj(f), [i] + [j])
            && var v := NormNode(Obj(f), [i] + [j], Child(c, j), limit);
               && v != Err(RecursionLimit)
               && (v.Ok? ==>
                     && MembersWeight(w, SetChild(c, j, v.value)) <= MembersWeight(w, c)
                     && Weighed(w, f[i := Field(sec, SetChild(c, j, v.value))]))
  {
    var i, c := Index(f, sec), Value(f, sec);
    DefFar(w, f, sec, j);
    ChildBelow(w, c, j);
    FieldBelow(w, f, i);
    NodeHalts(w, Obj(f), [i] + [j], Weight(w, Child(c, j)), Child(c, j), limit);
    var v := NormNode(Obj(f), [i] + [j], Child(c, j), limit);
    if v.Ok? {
      ChildLighter(w, c, j, v.value);
      NormNodeNormal(Obj(f), [i] + [j], Child(c, j), limit);
      if v.value.Obj? { NormalWeight(w, v.value.fields); }
      DefRewritten(w, f, sec, j, v.value);
    }
  }

  /** Replacing a definition by one that is not heavier keeps the certificate. */
  lemma DefRewritten(w: Weights, f: Fields, sec: Name, j: nat, v: Json)
    requires Weighed(w, f) && Has(f, sec) && sec in {Defs, Definitions} && j < Size(Value(f, sec))
    requires Weight(w, v) <= Weight(w, Child(Value(f, sec), j))
    requires v.Obj? == Child(Value(f, sec), j).Obj? && (v.Obj? ==> InlinedWeight(w, v.fields) == Weight(w, v))
    ensures Weighed(w, f[Index(f, sec) := Field(sec, SetChild(Value(f, sec), j, v))])
  {
    var i, c := Index(f, sec), Value(f, sec);
    var g := f[i := Field(sec, SetChild(c, j, v))];
    DefLighter(w, f, sec, j, v);
    RootedMember(f, sec, j, v);
    AllRaiseKept(w, f, g);
    forall key | key in w.of ensures Good(w, Obj(g), key) {
      assert Good(w, Obj(f), key);
      DefAfter(f, sec, j, v, key);
    }
  }

  lemma DefLighter(w: Weights, f: Fields, sec: Name, j: nat, v: Json)
    requires Has(f, sec) && sec in {Defs, Definitions} && j < Size(Value(f, sec))
    requires Weight(w, v) <= Weight(w, Child(Value(f, sec), j))
    ensures Weight(w, Obj(f[Index(f, sec) := Field(sec, SetChild(Value(f, sec), j, v))])) <= Weight(w, Obj(f))
  {
    var i, c := Index(f, sec), Value(f, sec);
    var d := SetChild(c, j, v);
    var g := f[i := Field(sec, d)];
    ChildLighter(w, c, j, v);
    WeightReplace(w, f, i, Field(sec, d));
    SameKeys(f, g, AllOf);
    SameShapeWeight(w, f, g);
  }

  /** The inlining part of the weight depends on names, `$ref` and a single `allOf` only. */
  lemma SameShapeWeight(w: Weights, f: Fields, g: Fields)
    requires SameNames(f, g) && (Has(f, Ref) ==> g[Index(f, Ref)] == f[Index(f, Ref)])
    requires Get(f, AllOf) == Get(g, AllOf) || (!SingleAllOf(f) && !SingleAllOf(g))
    ensures Weight(w, Obj(f)) - FieldsWeight(w, f) == Weight(w, Obj(g)) - FieldsWeight(w, g)
  {
    SameKeys(f, g, Ref);
    DropSameLength(f, g, {Default});
    StrRefDropped(f);
    StrRefDropped(g);
    DropGet(f, {Default}, AllOf);
    DropGet(g, {Default}, AllOf);
    if Get(f, AllOf) == Get(g, AllOf) { MemberCostKept(w, Drop(f, {Default}), Drop(g, {Default})); }
  }

  lemma {:induction false} DropSameLength(f: Fields, g: Fields, ks: set<Name>)
    requires SameNames(f, g)
    ensures |Drop(f, ks)| == |Drop(g, ks)|
  {
    if f != [] {
      assert f[0].key == g[0].key;
      forall i | 0 <= i < |f[1..]| ensures f[1..][i].key == g[1..][i].key {
        assert f[1..][i] == f[i + 1] && g[1..][i] == g[i + 1];
      }
      DropSameLength(f[1..], g[1..], ks);
    }
  }

  predicate FineKey(w: Weights, r: Result<Fields>, f: Fields) {
    && r != Err(RecursionLimit)
    && (r.Ok? ==> Weighed(w, r.value) && Load(w, r.value) <= Load(w, f))
  }

  /** One keyword of the root. */
  lemma RootKeyHalts(w: Weights, root: Json, f: Fields, k: Name, limit: nat)
    requires Weighed(w, f) && k in SUBSCHEMA_KEYS && (k == AllOf ==> !SingleAllOf(f))
    requires Load(w, f) <= limit
    ensures FineKey(w, NormKey(root, [], f, k, limit), f)
  {
    if k in {Defs, Definitions} {
      RootDefsHalt(w, root, f, k, limit);
    } else {
      RootOtherHalts(w, root, f, k, limit);
    }
  }

  lemma RootDefsHalt(w: Weights, root: Json, f: Fields, k: Name, limit: nat)
    requires Weighed(w, f) && k in {Defs, Definitions} && Load(w, f) <= limit
    ensures FineKey(w, NormKey(root, [], f, k, limit), f)
  {
    if Has(f, k) && VisitsMembers(k, Value(f, k)) {
      var i, v := Index(f, k), Value(f, k);
      assert f[i := Field(k, v)] == f && [] + [i] == [i];
      FieldBelow(w, f, i);
      DefsHalt(w, f, k, v, 0, limit);
      var r := NormMembers(Obj(f), [i], v, 0, limit);
      if r.Ok? {
        WeightReplace(w, f, i, Field(k, r.value));
        KeyKeepsSole(w, root, [], f, k, limit);
      }
    }
  }

  lemma RootOtherHalts(w: Weights, root: Json, f: Fields, k: Name, limit: nat)
    requires Weighed(w, f) && k in SUBSCHEMA_KEYS - {Defs, Definitions} && (k == AllOf ==> !SingleAllOf(f))
    requires Load(w, f) <= limit
    ensures FineKey(w, NormKey(root, [], f, k, limit), f)
  {
    if Has(f, k) {
      RootFar(w, f, k);
      assert [] + [Index(f, k)] == [Index(f, k)];
    }
    KeyHalts(w, root, [], w.unresolved, f, k, limit);
    var r := NormKey(root, [], f, k, limit);
    if r.Ok? {
      RootOtherKept(w, root, f, k, limit);
      KeyKeepsSole(w, root, [], f, k, limit);
    }
  }

  lemma RootOtherKept(w: Weights, root: Json, f: Fields, k: Name, limit: nat)
    requires Weighed(w, f) && k in SUBSCHEMA_KEYS - {Defs, Definitions} && (k == AllOf ==> !SingleAllOf(f))
    requires NormKey(root, [], f, k, limit).Ok?
    requires FieldsWeight(w, NormKey(root, [], f, k, limit).value) <= FieldsWeight(w, f)
    ensures Weighed(w, NormKey(root, [], f, k, limit).value)
  {
    var g := NormKey(root, [], f, k, limit).value;
    KeyFrame(root, [], f, k, limit);
    KeyFrameGet(root, [], f, k, limit, Defs);
    KeyFrameGet(root, [], f, k, limit, Definitions);
    KeyFrameGet(root, [], f, k, limit, AllOf);
    SameShapeWeight(w, f, g);
    RootedKey(root, f, k, limit);
    WeighedKept(w, f, g);
  }

  lemma RootedKey(root: Json, f: Fields, k: Name, limit: nat)
    requires NormKey(root, [], f, k, limit).Ok? && k !in {Defs, Definitions}
    ensures Rooted(f, NormKey(root, [], f, k, limit).value)
  {
    var g := NormKey(root, [], f, k, limit).value;
    forall q ensures Index(g, q) == Index(f, q) && (q != k ==> Get(g, q) == Get(f, q)) {
      KeyFrameGet(root, [], f, k, limit, q);
    }
  }

  lemma {:induction false} RootHalts(w: Weights, root: Json, f: Fields, limit: nat)
    requires Weighed(w, f) && Weight(w, Obj(f)) <= limit + 1
    ensures NormDict(root, [], f, limit) != Err(RecursionLimit)
    decreases limit, 3
  {
    var g := Drop(f, {Default});
    DropGet(f, {Default}, Defs);
    DropGet(f, {Default}, Definitions);
    DropGet(f, {Default}, Ref);
    if Inlines(g) && StrRef(g).value in w.broken {
      RootRaises(w, f);
    } else if Inlines(g) {
      var target := RootTarget(w, f);
      RootMergeHalts(w, root, f, g, target, Ref, limit);
    } else {
      RootShaped(w, f);
      RootPlainHalts(w, root, Shaped(g), limit);
    }
  }

  lemma RootedDrop(f: Fields)
    ensures Rooted(f, Drop(f, {Default}))
  {
    var g := Drop(f, {Default});
    DropGet(f, {Default}, Defs);
    DropGet(f, {Default}, Definitions);
    forall k | Has(g, k) ensures Has(f, k) { DropGet(f, {Default}, k); }
  }

  lemma RootRaises(w: Weights, f: Fields)
    requires Weighed(w, f) && Inlines(Drop(f, {Default})) && StrRef(Drop(f, {Default})).value in w.broken
    ensures var r := Resolve(Obj(Drop(f, {Default})), StrRef(Drop(f, {Default})).value);
            r.Err? && r != Err(RecursionLimit)
  {
    RootedDrop(f);
    AllFail(w, f, Drop(f, {Default}));
    ResolveNeverExhausts(Obj(Drop(f, {Default})), StrRef(Drop(f, {Default})).value);
  }

  /** What the `$ref` of the root resolves to. */
  lemma RootTarget(w: Weights, f: Fields) returns (target: Fields)
    requires Weighed(w, f) && Inlines(Drop(f, {Default})) && StrRef(Drop(f, {Default})).value !in w.broken
    ensures Resolve(Obj(Drop(f, {Default})), StrRef(Drop(f, {Default})).value) == Ok(target)
    ensures Weight(w, Obj(Inlined(Drop(f, {Default}), target))) < Weight(w, Obj(f))
  {
    var g := Drop(f, {Default});
    StrRefDropped(f);
    DropGet(f, {Default}, Defs);
    DropGet(f, {Default}, Definitions);
    var ref := StrRef(g).value;
    var key := Names2(ref);
    assert key.Some? && key.value in w.of && key.value in w.targets;
    assert Good(w, Obj(f), key.value);
    DefOfFields(f, g, key.value);
    ResolveDef(Obj(g), ref);
    target := Def(Obj(g), key.value).value.fields;
    InlineLighter(w, f, target);
  }

  /** The root without `default`, with its defaults and `required`. */
  lemma RootShaped(w: Weights, f: Fields)
    requires Weighed(w, f) && !Inlines(Drop(f, {Default}))
    ensures var s := Shaped(Drop(f, {Default})); Weighed(w, s) && Shapely(s) && 1 + Load(w, s) <= Weight(w, Obj(f))
  {
    var g := Drop(f, {Default});
    var s := Shaped(g);
    DropGet(f, {Default}, Defs);
    DropGet(f, {Default}, Definitions);
    DropGet(f, {Default}, Default);
    LoadDropped(w, f);
    LoadShaped(w, g);
    ShapedTop(g);
    ShapedGet(g, Defs);
    ShapedGet(g, Definitions);
    NotInlining(w, s);
    RootedShaped(f);
    WeighedKept(w, f, s);
  }

  lemma RootedShaped(f: Fields)
    ensures Rooted(f, Shaped(Drop(f, {Default})))
  {
    var g := Drop(f, {Default});
    RootedDrop(f);
    DropGet(f, {Default}, Defs);
    DropGet(f, {Default}, Definitions);
    ShapedGet(g, Defs);
    ShapedGet(g, Definitions);
    forall k | Has(Shaped(g), k) && k !in {Required, AdditionalProperties} ensures Has(f, k) {
      ShapedGet(g, k);
      DropGet(f, {Default}, k);
    }
  }

  lemma NotInlining(w: Weights, f: Fields)
    requires !Inlines(f) && !Has(f, Default)
    ensures Weight(w, Obj(f)) == 1 + Load(w, f)
  {
    IndexFirst(f, Default);
    DropNothing(f, {Default});
  }

  /** Merging fields into the root leaves its definitions in place. */
  lemma MergedSection(f: Fields, g: Fields, x: Fields, k: Name, sec: Name)
    requires k in {Ref, AllOf} && sec in {Defs, Definitions} && (Has(f, sec) ==> Get(g, sec) == Get(f, sec))
    ensures Has(f, sec) ==> Get(Drop(Merge(g, x), {k}), sec) == Get(f, sec)
  {
    MergeGet(g, x, sec);
    DropGet(Merge(g, x), {k}, sec);
  }

  lemma MergedWeighed(w: Weights, f: Fields, m: Fields)
    requires Weighed(w, f) && Weight(w, Obj(m)) < w.unresolved && (Has(f, Ref) || Has(f, AllOf))
    requires Has(f, Defs) ==> Get(m, Defs) == Get(f, Defs)
    requires Has(f, Definitions) ==> Get(m, Definitions) == Get(f, Definitions)
    ensures Weighed(w, m)
  {
    assert Rooted(f, m);
    WeighedKept(w, f, m);
  }

  lemma {:induction false} RootMergeHalts(w: Weights, root: Json, f: Fields, g: Fields, x: Fields, k: Name, limit: nat)
    requires Weighed(w, f) && Weight(w, Obj(f)) <= limit + 1 && k in {Ref, AllOf} && Has(f, k)
    requires Has(f, Defs) ==> Get(g, Defs) == Get(f, Defs)
    requires Has(f, Definitions) ==> Get(g, Definitions) == Get(f, Definitions)
    requires Weight(w, Obj(Drop(Merge(g, x), {k}))) < Weight(w, Obj(f))
    ensures NormNode(root, [], Obj(Drop(Merge(g, x), {k})), limit) != Err(RecursionLimit)
    decreases limit, 0, 1
  {
    var m := Drop(Merge(g, x), {k});
    MergedSection(f, g, x, k, Defs);
    MergedSection(f, g, x, k, Definitions);
    MergedWeighed(w, f, m);
    RootNodeHalts(w, root, m, limit);
  }

  lemma {:induction false} RootNodeHalts(w: Weights, root: Json, m: Fields, limit: nat)
    requires Weighed(w, m) && Weight(w, Obj(m)) <= limit
    ensures NormNode(root, [], Obj(m), limit) != Err(RecursionLimit)
    decreases limit, 0, 0
  {
    NodeOfDict(root, [], m, limit);
    RootHalts(w, root, m, limit - 1);
  }

  lemma {:induction false} RootPlainHalts(w: Weights, root: Json, s: Fields, limit: nat)
    requires Weighed(w, s) && Shapely(s) && Load(w, s) <= limit
    ensures var r := NormFirst(root, [], s, limit);
            if r.Ok? then NormTail(root, [], r.value, limit) != Err(RecursionLimit) else r != Err(RecursionLimit)
    decreases limit, 2
  {
    RootKeyHalts(w, root, s, Properties, limit);
    var f1 := NormKey(root, [], s, Properties, limit);
    if f1.Ok? {
      RootKeyHalts(w, root, f1.value, Items, limit);
      var f2 := NormKey(root, [], f1.value, Items, limit);
      if f2.Ok? {
        RootKeyHalts(w, root, f2.value, Defs, limit);
        var f3 := NormKey(root, [], f2.value, Defs, limit);
        if f3.Ok? {
          RootKeyHalts(w, root, f3.value, Definitions, limit);
          var h := NormKey(root, [], f3.value, Definitions, limit);
          if h.Ok? {
            FirstKeysNormal(root, [], s, limit);
            RootTailHalts(w, root, h.value, limit);
          }
        }
      }
    }
  }

  lemma {:induction false} RootTailHalts(w: Weights, root: Json, h: Fields, limit: nat)
    requires Weighed(w, h) && Shapely(h) && Load(w, h) <= limit
    ensures NormTail(root, [], h, limit) != Err(RecursionLimit)
    decreases limit, 1
  {
    if SingleAllOf(h) {
      if Member(h).Obj? {
        NoRefBesideAllOf(h);
        CollapseLighter(w, h);
        NotInlining(w, h);
        RootMergeHalts(w, root, h, h, Member(h).fields, AllOf, limit);
      }
    } else {
      RootKeyHalts(w, root, h, AnyOf, limit);
      var f1 := NormKey(root, [], h, AnyOf, limit);
      if f1.Ok? {
        KeyFrameGet(root, [], h, AnyOf, limit, AllOf);
        RootKeyHalts(w, root, f1.value, OneOf, limit);
        var f2 := NormKey(root, [], f1.value, OneOf, limit);
        if f2.Ok? {
          KeyFrameGet(root, [], f1.value, OneOf, limit, AllOf);
          RootKeyHalts(w, root, f2.value, AllOf, limit);
        }
      }
    }
  }

  /** With a certificate of acyclicity, a recursion limit as large as the schema's weight is never reached. */
  lemma NormalizeHalts(w: Weights, schema: Fields, limit: nat)
    requires Weighed(w, schema) && Weight(w, Obj(schema)) <= limit
    ensures Normalize(Obj(schema), limit) != Err(RecursionLimit)
  {
    NodeOfDict(Obj(schema), [], schema, limit);
    RootHalts(w, Obj(schema), schema, limit - 1);
  }
}
