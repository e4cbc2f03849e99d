/**
 Resolving each `$ref` in the half-rewritten document gives the same final schema as the pure
 normaliser, whatever has or has not been rewritten when a definition is copied.
 */
module InPlaceEqualsPure {
  import opened Options
  import opened Json
  import opened SchemaNormalizer
  import opened SchemaNormalForm
  import opened SchemaDefinitions
  import opened SchemaTermination
  import opened PureNormalizer

  /** The definition is, in this document, something that finishes to its table entry. */
  predicate Solved(t: Table, root: Json, key: DefKey)
    requires key in t.of
  {
    var d := Def(root, key);
    && d.Some? && d.value.Obj? && Domain(t, d.value) && Unique(d.value)
    && Pure(t, d.value) == Obj(t.of[key])
    && (key in t.targets ==> !Has(d.value.fields, Ref) && !Has(t.of[key], Ref))
  }

  predicate Matching(t: Table, w: Weights) {
    t.of.Keys == w.of.Keys && w.broken == {} && UniqueTable(t)
  }

  ghost predicate FarSolved(t: Table, w: Weights, root: Json, p: seq<nat>, b: nat) {
    && Far(w, root, p, b)
    && forall key, v | key in t.of && key in w.of && w.of[key] < b :: Solved(t, PutAt(root, p, v), key)
  }

  predicate RootSolved(t: Table, w: Weights, f: Fields) {
    Weighed(w, f) && forall key | key in t.of :: Solved(t, Obj(f), key)
  }

  /** The definitions an activation at `p` can name are solved while it turns its node into `f`. */
  ghost predicate Safe(t: Table, w: Weights, root: Json, p: seq<nat>, b: nat, f: Fields) {
    if p == [] then b == w.unresolved && RootSolved(t, w, f) else FarSolved(t, w, root, p, b)
  }

  lemma FarSolvedChild(t: Table, w: Weights, root: Json, p: seq<nat>, b: nat, n: Json, i: nat)
    requires FarSolved(t, w, root, p, b) && i < Size(n)
    ensures FarSolved(t, w, PutAt(root, p, n), p + [i], b)
  {
    FarChild(w, root, p, b, n, i);
    forall key, v | key in t.of && key in w.of && w.of[key] < b
      ensures Solved(t, PutAt(PutAt(root, p, n), p + [i], v), key)
    {
      PutChild(root, p, n, i, v);
    }
  }

  lemma SafeKept(t: Table, w: Weights, root: Json, p: seq<nat>, b: nat, f: Fields, g: Fields)
    requires Safe(t, w, root, p, b, f) && Weight(w, Obj(g)) < w.unresolved
    requires Has(f, Defs) ==> Get(g, Defs) == Get(f, Defs)
    requires Has(f, Definitions) ==> Get(g, Definitions) == Get(f, Definitions)
    requires Matching(t, w)
    ensures Safe(t, w, root, p, b, g)
  {
    if p == [] {
      WeighedKept(w, f, g);
      forall key | key in t.of ensures Solved(t, Obj(g), key) {
        assert Solved(t, Obj(f), key) && key in w.of;
        DefOfFields(f, g, key);
      }
    }
  }

  // ---- below a dictionary ------------------------------------------------------------------

  lemma {:induction false} NodeAgrees(t: Table, w: Weights, root: Json, p: seq<nat>, b: nat, n: Json, limit: nat)
    requires Matching(t, w) && p != [] && FarSolved(t, w, root, p, b)
    requires Weight(w, n) <= b <= w.unresolved && Weight(w, n) < w.unresolved && Weight(w, n) <= limit
    requires Domain(t, n) && Unique(n)
    ensures NormNode(root, p, n, limit) == Ok(Pure(t, n))
    decreases limit, 0
  {
    if n.Obj? {
      DictNodeAgrees(t, w, root, p, b, n.fields, limit);
    } else if n.Arr? {
      ListAgrees(t, w, root, p, b, n, limit - 1);
    } else {
      ScalarAgrees(t, root, p, n, limit);
    }
  }

  lemma NodeOfList(root: Json, p: seq<nat>, n: Json, limit: nat)
    requires ValidPath(root, p) && n.Arr? && limit > 0
    ensures NormNode(root, p, n, limit) == NormMembers(root, p, n, 0, limit - 1)
  {
  }

  lemma ScalarAgrees(t: Table, root: Json, p: seq<nat>, n: Json, limit: nat)
    requires ValidPath(root, p) && !n.Arr? && !n.Obj? && limit > 0
    ensures NormNode(root, p, n, limit) == Ok(Pure(t, n))
  {
  }

  lemma {:induction false} ListAgrees(t: Table, w: Weights, root: Json, p: seq<nat>, b: nat, n: Json, limit: nat)
    requires Matching(t, w) && p != [] && FarSolved(t, w, root, p, b) && n.Arr?
    requires Weight(w, n) <= b <= w.unresolved && Weight(w, n) <= limit + 1
    requires Domain(t, n) && Unique(n)
    ensures NormNode(root, p, n, limit + 1) == Ok(Pure(t, n))
    decreases limit, 3
  {
    NodeOfList(root, p, n, limit + 1);
    forall i | 0 <= i < Size(n) ensures Domain(t, Child(n, i)) { assert Child(n, i) == n.items[i]; }
    MembersAgree(t, w, root, p, b, n, 0, limit);
    MembersDetermine(t, n, NormMembers(root, p, n, 0, limit).value);
  }

  /** The members from `i` on are finished, those before as they were. */
  predicate FinishedFrom(t: Table, r: Result<Json>, c: Json, i: nat) {
    && r.Ok? && SameShape(r.value, c)
    && forall j | 0 <= j < Size(c) :: Child(r.value, j) == if j < i then Child(c, j) else Pure(t, Child(c, j))
  }

  lemma FinishedOneMore(t: Table, r: Result<Json>, c: Json, i: nat)
    requires i < Size(c) && FinishedFrom(t, r, SetChild(c, i, Pure(t, Child(c, i))), i + 1)
    ensures FinishedFrom(t, r, c, i)
  {
    var d := SetChild(c, i, Pure(t, Child(c, i)));
    forall j | 0 <= j < Size(c) ensures Child(r.value, j) == if j < i then Child(c, j) else Pure(t, Child(c, j)) {
      assert Child(r.value, j) == if j < i + 1 then Child(d, j) else Pure(t, Child(d, j));
    }
  }

  lemma {:induction false} MembersAgree(
      t: Table, w: Weights, root: Json, p: seq<nat>, b: nat, c: Json, i: nat, limit: nat)
    requires Matching(t, w) && FarSolved(t, w, root, p, b) && i <= Size(c)
    requires MembersWeight(w, c) <= b <= w.unresolved && MembersWeight(w, c) < w.unresolved &&
             MembersWeight(w, c) <= limit
    requires forall j | i <= j < Size(c) :: Domain(t, Child(c, j)) && Unique(Child(c, j))
    ensures FinishedFrom(t, NormMembers(root, p, c, i, limit), c, i)
    decreases limit, 1, Size(c) - i, 1
  {
    if i < Size(c) {
      var v := Pure(t, Child(c, i));
      MemberAgrees(t, w, root, p, b, c, i, limit);
      MembersStep(root, p, c, i, limit, v);
      MembersAgree(t, w, root, p, b, SetChild(c, i, v), i + 1, limit);
      FinishedOneMore(t, NormMembers(root, p, c, i, limit), c, i);
    }
  }

  lemma {:induction false} MemberAgrees(
      t: Table, w: Weights, root: Json, p: seq<nat>, b: nat, c: Json, i: nat, limit: nat)
    requires Matching(t, w) && FarSolved(t, w, root, p, b) && i < Size(c)
    requires MembersWeight(w, c) <= b <= w.unresolved && MembersWeight(w, c) < w.unresolved &&
             MembersWeight(w, c) <= limit
    requires Domain(t, Child(c, i)) && Unique(Child(c, i))
    ensures ValidPath(PutAt(root, p, c), p + [i])
    ensures NormNode(PutAt(root, p, c), p + [i], Child(c, i), limit) == Ok(Pure(t, Child(c, i)))
    ensures MembersWeight(w, SetChild(c, i, Pure(t, Child(c, i)))) <= MembersWeight(w, c)
    decreases limit, 1, Size(c) - i, 0
  {
    PutChild(root, p, c, i, Child(c, i));
    ChildBelow(w, c, i);
    FarSolvedChild(t, w, root, p, b, c, i);
    NodeAgrees(t, w, PutAt(root, p, c), p + [i], b, Child(c, i), limit);
    NodeHalts(w, PutAt(root, p, c), p + [i], b, Child(c, i), limit);
    ChildLighter(w, c, i, Pure(t, Child(c, i)));
  }

  /** What rewriting the keyword `k` has to deliver. */
  predicate KeyFinished(t: Table, r: Result<Fields>, f: Fields, k: Name) {
    r.Ok? && r.value == if Has(f, k) then f[Index(f, k) := PureField(t, f[Index(f, k)])] else f
  }

  lemma {:induction false} KeyAgrees(
      t: Table, w: Weights, root: Json, p: seq<nat>, b: nat, f: Fields, k: Name, limit: nat)
    requires Matching(t, w) && ValidPath(root, p) && k in SUBSCHEMA_KEYS
    requires Has(f, k) ==> FarSolved(t, w, PutAt(root, p, Obj(f)), p + [Index(f, k)], b)
    requires FieldsWeight(w, f) <= b <= w.unresolved && FieldsWeight(w, f) < w.unresolved && FieldsWeight(w, f) <= limit
    requires FieldsDomain(t, f) && UniqueFields(f)
    ensures KeyFinished(t, NormKey(root, p, f, k, limit), f, k)
    decreases limit, 2
  {
    if Has(f, k) {
      var i, v := Index(f, k), Value(f, k);
      PutChild(root, p, Obj(f), i, v);
      FieldBelow(w, f, i);
      assert FieldDomain(t, f[i]) && f[i] == Field(k, v);
      var root', p' := PutAt(root, p, Obj(f)), p + [i];
      if k == Items {
        if !v.Null? { NodeAgrees(t, w, root', p', b, v, limit); }
      } else if VisitsMembers(k, v) {
        ContainerAgrees(t, w, root', p', b, v, limit);
      }
    }
  }

  lemma {:induction false} ContainerAgrees(t: Table, w: Weights, root: Json, p: seq<nat>, b: nat, c: Json, limit: nat)
    requires Matching(t, w) && FarSolved(t, w, root, p, b) && (c.Obj? || c.Arr?)
    requires MembersWeight(w, c) <= b <= w.unresolved && MembersWeight(w, c) < w.unresolved &&
             MembersWeight(w, c) <= limit
    requires MembersDomain(t, c) && Unique(c)
    ensures NormMembers(root, p, c, 0, limit) == Ok(PureMembers(t, c))
    decreases limit, 1, Size(c) + 1
  {
    MembersOfKey(t, c);
    MembersAgree(t, w, root, p, b, c, 0, limit);
    MembersDetermine(t, c, NormMembers(root, p, c, 0, limit).value);
  }

  lemma MembersOfKey(t: Table, c: Json)
    requires MembersDomain(t, c) && Unique(c)
    ensures forall j | 0 <= j < Size(c) :: Domain(t, Child(c, j)) && Unique(Child(c, j))
  {
    forall j | 0 <= j < Size(c) ensures Domain(t, Child(c, j)) && Unique(Child(c, j)) {
      UniqueChild(c, j);
      if c.Obj? { assert ValueDomain(t, c.fields[j]); } else { assert Domain(t, c.items[j]); }
    }
  }

  // ---- one keyword of a dictionary ---------------------------------------------------------

  /** A rewritten keyword is finished, so finishing it again is harmless. */
  lemma KeyRefines(t: Table, root: Json, p: seq<nat>, f: Fields, k: Name, limit: nat)
    requires UniqueTable(t) && ValidPath(root, p) && k in SUBSCHEMA_KEYS
    requires FieldsDomain(t, f) && UniqueFields(f)
    requires KeyFinished(t, NormKey(root, p, f, k, limit), f, k)
    ensures var g := NormKey(root, p, f, k, limit).value;
            FieldsDomain(t, g) && UniqueFields(g) && PureFields(t, g) == PureFields(t, f)
  {
    var g := NormKey(root, p, f, k, limit).value;
    if Has(f, k) {
      var i := Index(f, k);
      UniquePureField(t, f[i]);
      UniqueReplace(f, i, g[i]);
      NormKeyNormal(root, p, f, k, limit);
      SameKeys(f, g, k);
      ObjUnique(g);
      FieldOfNormal(t, Obj(g), g, i, limit);
      assert PureFields(t, g) == PureFields(t, f);
    }
  }

  lemma UniqueReplace(f: Fields, i: nat, x: Field)
    requires UniqueFields(f) && i < |f| && x.key == f[i].key && Unique(x.value)
    ensures UniqueFields(f[i := x])
  {
  }

  lemma RootFarSolved(t: Table, w: Weights, f: Fields, k: Name)
    requires Matching(t, w) && RootSolved(t, w, f) && Has(f, k) && k !in {Defs, Definitions}
    ensures FarSolved(t, w, Obj(f), [Index(f, k)], w.unresolved)
  {
    RootFar(w, f, k);
    var i := Index(f, k);
    forall key, v | key in t.of && key in w.of && w.of[key] < w.unresolved
      ensures Solved(t, PutAt(Obj(f), [i], v), key)
    {
      assert Solved(t, Obj(f), key) && key.0 in {Defs, Definitions};
      DefElsewhere(f, i, v, key);
    }
  }

  /** Writing under a keyword that is not a section of definitions leaves the definitions alone. */
  lemma DefElsewhere(f: Fields, i: nat, v: Json, key: DefKey)
    requires i < |f| && f[i].key != key.0
    ensures ValidPath(Obj(f), [i]) && Def(PutAt(Obj(f), [i], v), key) == Def(Obj(f), key)
  {
    PutChild(Obj(f), [], Obj(f), i, v);
    assert [] + [i] == [i];
    var g := f[i := f[i].(value := v)];
    assert PutAt(Obj(f), [i], v) == Obj(g);
    SameKeys(f, g, key.0);
    DefOfFields(f, g, key);
  }

  lemma DefFarSolved(t: Table, w: Weights, f: Fields, sec: Name, j: nat)
    requires Matching(t, w) && RootSolved(t, w, f) && Has(f, sec) && sec in {Defs, Definitions}
    requires j < Size(Value(f, sec))
    ensures FarSolved(t, w, Obj(f), [Index(f, sec)] + [j], Weight(w, Child(Value(f, sec), j)))
  {
    DefFar(w, f, sec, j);
    var i, c := Index(f, sec), Value(f, sec);
    var b := Weight(w, Child(c, j));
    forall key, v | key in t.of && key in w.of && w.of[key] < b
      ensures Solved(t, PutAt(Obj(f), [i] + [j], v), key)
    {
      LightDefSolved(t, w, f, sec, j, key, v);
    }
  }

  /** A definition lighter than the one being rewritten is not it. */
  lemma LightDefSolved(t: Table, w: Weights, f: Fields, sec: Name, j: nat, key: DefKey, v: Json)
    requires Matching(t, w) && RootSolved(t, w, f) && Has(f, sec) && sec in {Defs, Definitions}
    requires j < Size(Value(f, sec)) && key in t.of && key in w.of && w.of[key] < Weight(w, Child(Value(f, sec), j))
    requires ValidPath(Obj(f), [Index(f, sec)] + [j])
    ensures Solved(t, PutAt(Obj(f), [Index(f, sec)] + [j], v), key)
  {
    PutMember(f, sec, j, v);
    DefAfter(f, sec, j, v, key);
    assert Solved(t, Obj(f), key) && Good(w, Obj(f), key);
  }

  lemma PutMember(f: Fields, sec: Name, j: nat, v: Json)
    requires Has(f, sec) && j < Size(Value(f, sec))
    ensures var i, c := Index(f, sec), Value(f, sec);
            ValidPath(Obj(f), [i] + [j]) &&
            PutAt(Obj(f), [i] + [j], v) == Obj(f[i := Field(sec, SetChild(c, j, v))])
  {
    var i, c := Index(f, sec), Value(f, sec);
    PutChild(Obj(f), [], Obj(f), i, c);
    assert [] + [i] == [i];
    assert SetChild(Obj(f), i, c) == Obj(f);
    PutChild(Obj(f), [i], c, j, v);
    PutChild(Obj(f), [], Obj(f), i, SetChild(c, j, v));
  }

  lemma SectionPlace(f: Fields, sec: Name, c: Json)
    requires Has(f, sec)
    ensures var i, f' := Index(f, sec), f[Index(f, sec) := Field(sec, c)];
            && ValidPath(Obj(f), [i]) && PutAt(Obj(f), [i], c) == Obj(f')
            && Has(f', sec) && Index(f', sec) == i && Value(f', sec) == c
  {
    var i := Index(f, sec);
    PutChild(Obj(f), [], Obj(f), i, c);
    assert [] + [i] == [i];
    SameKeys(f, f[i := Field(sec, c)], sec);
  }

  /** The definitions, rewritten in place one after the other, each become their table entries. */
  lemma {:induction false} DefsAgree(t: Table, w: Weights, f: Fields, sec: Name, c: Json, j: nat, limit: nat)
    requires Matching(t, w) && Has(f, sec) && sec in {Defs, Definitions} && j <= Size(c)
    requires RootSolved(t, w, f[Index(f, sec) := Field(sec, c)]) && MembersWeight(w, c) <= limit
    requires forall m | j <= m < Size(c) :: Domain(t, Child(c, m)) && Unique(Child(c, m))
    ensures var i := Index(f, sec);
            ValidPath(Obj(f), [i]) &&
            var r := NormMembers(Obj(f), [i], c, j, limit);
            FinishedFrom(t, r, c, j) && RootSolved(t, w, f[i := Field(sec, r.value)])
    decreases limit, 3, 1, Size(c) - j
  {
    var i := Index(f, sec);
    SectionPlace(f, sec, c);
    if j < Size(c) {
      var f' := f[i := Field(sec, c)];
      PutChild(Obj(f), [i], c, j, Child(c, j));
      DefAgrees(t, w, f', sec, j, limit);
      var v := Pure(t, Child(c, j));
      assert f'[i := Field(sec, SetChild(c, j, v))] == f[i := Field(sec, SetChild(c, j, v))];
      MembersStep(Obj(f), [i], c, j, limit, v);
      DefsAgree(t, w, f, sec, SetChild(c, j, v), j + 1, limit);
      FinishedOneMore(t, NormMembers(Obj(f), [i], c, j, limit), c, j);
    }
  }

  /** One definition of the document. */
  lemma {:induction false} DefAgrees(t: Table, w: Weights, f: Fields, sec: Name, j: nat, limit: nat)
    requires Matching(t, w) && RootSolved(t, w, f) && Has(f, sec) && sec in {Defs, Definitions}
    requires j < Size(Value(f, sec)) && MembersWeight(w, Value(f, sec)) <= limit
    requires var x := Child(Value(f, sec), j); Domain(t, x) && Unique(x)
    ensures var i, c := Index(f, sec), Value(f, sec);
            var v := Pure(t, Child(c, j));
            && ValidPath(Obj(f), [i] + [j]) && NormNode(Obj(f), [i] + [j], Child(c, j), limit) == Ok(v)
            && MembersWeight(w, SetChild(c, j, v)) <= MembersWeight(w, c)
            && RootSolved(t, w, f[i := Field(sec, SetChild(c, j, v))])
    decreases limit, 3, 0, 0
  {
    var i, c := Index(f, sec), Value(f, sec);
    var x := Child(c, j);
    var b := Weight(w, x);
    DefFarSolved(t, w, f, sec, j);
    ChildBelow(w, c, j);
    FieldBelow(w, f, i);
    NodeAgrees(t, w, Obj(f), [i] + [j], b, x, limit);
    NodeHalts(w, Obj(f), [i] + [j], b, x, limit);
    NormNodeNormal(Obj(f), [i] + [j], x, limit);
    ChildLighter(w, c, j, Pure(t, x));
    DefFinished(t, w, f, sec, j, limit);
  }

  lemma DefFinished(t: Table, w: Weights, f: Fields, sec: Name, j: nat, d: nat)
    requires Matching(t, w) && RootSolved(t, w, f) && Has(f, sec) && sec in {Defs, Definitions}
    requires j < Size(Value(f, sec))
    requires var x := Child(Value(f, sec), j);
             && Unique(x) && Weight(w, Pure(t, x)) <= Weight(w, x) && Normal(Pure(t, x), d)
             && Pure(t, x).Obj? == x.Obj?
    ensures var c := Value(f, sec);
            RootSolved(t, w, f[Index(f, sec) := Field(sec, SetChild(c, j, Pure(t, Child(c, j))))])
  {
    var v := Pure(t, Child(Value(f, sec), j));
    FinishedWeighed(w, f, sec, j, v, d);
    forall key | key in t.of
      ensures Solved(t, Obj(f[Index(f, sec) := Field(sec, SetChild(Value(f, sec), j, v))]), key)
    {
      DefStaysSolved(t, w, f, sec, j, d, key);
    }
  }

  lemma FinishedWeighed(w: Weights, f: Fields, sec: Name, j: nat, v: Json, d: nat)
    requires Weighed(w, f) && Has(f, sec) && sec in {Defs, Definitions} && j < Size(Value(f, sec))
    requires var x := Child(Value(f, sec), j); Weight(w, v) <= Weight(w, x) && Normal(v, d) && v.Obj? == x.Obj?
    ensures Weighed(w, f[Index(f, sec) := Field(sec, SetChild(Value(f, sec), j, v))])
  {
    if v.Obj? { NormalWeight(w, v.fields); }
    DefRewritten(w, f, sec, j, v);
  }

  lemma DefStaysSolved(t: Table, w: Weights, f: Fields, sec: Name, j: nat, d: nat, key: DefKey)
    requires Matching(t, w) && RootSolved(t, w, f) && Has(f, sec) && j < Size(Value(f, sec)) && key in t.of
    requires var x := Child(Value(f, sec), j); Unique(x) && Normal(Pure(t, x), d) && Pure(t, x).Obj? == x.Obj?
    ensures var c := Value(f, sec);
            Solved(t, Obj(f[Index(f, sec) := Field(sec, SetChild(c, j, Pure(t, Child(c, j))))]), key)
  {
    var x := Child(Value(f, sec), j);
    var v := Pure(t, x);
    UniquePure(t, x);
    PureOfNormal(t, v, d);
    assert Solved(t, Obj(f), key);
    DefAfter(f, sec, j, v, key);
  }

  /** Everything that holds of a dictionary in the middle of its rewrite. */
  ghost predicate Midway(t: Table, w: Weights, root: Json, p: seq<nat>, b: nat, f: Fields, limit: nat) {
    && Matching(t, w) && ValidPath(root, p) && Safe(t, w, root, p, b, f)
    && Load(w, f) < b <= w.unresolved && Load(w, f) <= limit
    && FieldsDomain(t, f) && UniqueFields(f)
  }

  lemma {:induction false} KeyStep(
      t: Table, w: Weights, root: Json, p: seq<nat>, b: nat, f: Fields, k: Name, limit: nat)
    requires Midway(t, w, root, p, b, f, limit) && k in SUBSCHEMA_KEYS && (k == AllOf ==> !SingleAllOf(f))
    ensures var r := NormKey(root, p, f, k, limit);
            r.Ok? && Midway(t, w, root, p, b, r.value, limit) && PureFields(t, r.value) == PureFields(t, f)
    decreases limit, 6
  {
    if p == [] {
      RootKeyStep(t, w, root, f, k, limit);
    } else {
      if Has(f, k) { FarSolvedChild(t, w, root, p, b, Obj(f), Index(f, k)); }
      KeyAgrees(t, w, root, p, b, f, k, limit);
      InnerKeyHalts(w, root, p, b, f, k, limit);
    }
    KeyRefines(t, root, p, f, k, limit);
  }

  lemma {:induction false} RootKeyStep(t: Table, w: Weights, root: Json, f: Fields, k: Name, limit: nat)
    requires Matching(t, w) && RootSolved(t, w, f) && Load(w, f) <= limit
    requires FieldsDomain(t, f) && UniqueFields(f)
    requires k in SUBSCHEMA_KEYS && (k == AllOf ==> !SingleAllOf(f))
    ensures var r := NormKey(root, [], f, k, limit);
            KeyFinished(t, r, f, k) && RootSolved(t, w, r.value) && Load(w, r.value) <= Load(w, f)
    decreases limit, 5
  {
    RootKeyHalts(w, root, f, k, limit);
    if k in {Defs, Definitions} {
      RootDefsStep(t, w, root, f, k, limit);
    } else {
      RootOtherStep(t, w, root, f, k, limit);
    }
  }

  lemma {:induction false} RootOtherStep(t: Table, w: Weights, root: Json, f: Fields, k: Name, limit: nat)
    requires Matching(t, w) && RootSolved(t, w, f) && Load(w, f) <= limit
    requires FieldsDomain(t, f) && UniqueFields(f)
    requires k in SUBSCHEMA_KEYS - {Defs, Definitions} && FineKey(w, NormKey(root, [], f, k, limit), f)
    ensures var r := NormKey(root, [], f, k, limit);
            KeyFinished(t, r, f, k) && RootSolved(t, w, r.value)
    decreases limit, 4
  {
    if Has(f, k) {
      RootFarSolved(t, w, f, k);
      assert [] + [Index(f, k)] == [Index(f, k)];
    }
    KeyAgrees(t, w, root, [], w.unresolved, f, k, limit);
    var g := NormKey(root, [], f, k, limit).value;
    forall key | key in t.of ensures Solved(t, Obj(g), key) {
      assert Solved(t, Obj(f), key) && key in w.of && key.0 in {Defs, Definitions};
      KeyFrameGet(root, [], f, k, limit, key.0);
      DefOfFields(f, g, key);
    }
  }

  lemma {:induction false} RootDefsStep(t: Table, w: Weights, root: Json, f: Fields, k: Name, limit: nat)
    requires Matching(t, w) && RootSolved(t, w, f) && Load(w, f) <= limit
    requires FieldsDomain(t, f) && UniqueFields(f) && k in {Defs, Definitions}
    ensures var r := NormKey(root, [], f, k, limit);
            KeyFinished(t, r, f, k) && RootSolved(t, w, r.value)
    decreases limit, 4
  {
    if Has(f, k) && VisitsMembers(k, Value(f, k)) {
      var i, v := Index(f, k), Value(f, k);
      assert f[i := Field(k, v)] == f && [] + [i] == [i];
      assert FieldDomain(t, f[i]) && f[i] == Field(k, v);
      FieldBelow(w, f, i);
      MembersOfKey(t, v);
      DefsAgree(t, w, f, k, v, 0, limit);
      MembersDetermine(t, v, NormMembers(Obj(f), [i], v, 0, limit).value);
    }
  }

  // ---- a whole dictionary ------------------------------------------------------------------

  lemma {:induction false} DictAgrees(t: Table, w: Weights, root: Json, p: seq<nat>, b: nat, f: Fields, limit: nat)
    requires Matching(t, w) && ValidPath(root, p) && Safe(t, w, root, p, b, f)
    requires Weight(w, Obj(f)) <= b <= w.unresolved && Weight(w, Obj(f)) < w.unresolved &&
             Weight(w, Obj(f)) <= limit + 1
    requires Domain(t, Obj(f)) && Unique(Obj(f))
    ensures NormDict(root, p, f, limit) == Ok(Pure(t, Obj(f)))
    decreases limit, 11
  {
    var g := Drop(f, {Default});
    UniqueObj(f);
    UniqueDrop(f, {Default});
    if Inlines(g) {
      InlineAgrees(t, w, root, p, b, f, limit);
    } else {
      FieldsDomainDrop(t, f, {Default});
      LoadDropped(w, f);
      PureTop(t, f);
      DropGet(f, {Default}, Default);
      DropGet(f, {Default}, Defs);
      DropGet(f, {Default}, Definitions);
      PlainAgrees(t, w, root, p, b, f, g, limit);
    }
  }

  /** A dictionary merged with more fields, on the way to its next activation. */
  lemma {:induction false} MergedAgrees(
      t: Table, w: Weights, root: Json, p: seq<nat>, b: nat, g: Fields, x: Fields, k: Name, limit: nat)
    requires Matching(t, w) && ValidPath(root, p) && Safe(t, w, root, p, b, g) && k in {Ref, AllOf}
    requires var m := Obj(Drop(Merge(g, x), {k}));
             && Weight(w, m) <= b <= w.unresolved && Weight(w, m) < w.unresolved && Weight(w, m) <= limit
             && Domain(t, m) && Unique(m)
    ensures NormNode(root, p, Obj(Drop(Merge(g, x), {k})), limit) == Ok(Pure(t, Obj(Drop(Merge(g, x), {k}))))
    decreases limit, 0, 1
  {
    SafeMerged(t, w, root, p, b, g, x, k);
    DictNodeAgrees(t, w, root, p, b, Drop(Merge(g, x), {k}), limit);
  }

  lemma {:induction false} DictNodeAgrees(t: Table, w: Weights, root: Json, p: seq<nat>, b: nat, m: Fields, limit: nat)
    requires Matching(t, w) && ValidPath(root, p) && Safe(t, w, root, p, b, m)
    requires Weight(w, Obj(m)) <= b <= w.unresolved && Weight(w, Obj(m)) < w.unresolved && Weight(w, Obj(m)) <= limit
    requires Domain(t, Obj(m)) && Unique(Obj(m))
    ensures NormNode(root, p, Obj(m), limit) == Ok(Pure(t, Obj(m)))
    decreases limit, 0, 0
  {
    NodeOfDict(root, p, m, limit);
    DictAgrees(t, w, root, p, b, m, limit - 1);
  }

  lemma SafeMerged(t: Table, w: Weights, root: Json, p: seq<nat>, b: nat, g: Fields, x: Fields, k: Name)
    requires Matching(t, w) && ValidPath(root, p) && Safe(t, w, root, p, b, g) && k in {Ref, AllOf}
    requires Weight(w, Obj(Drop(Merge(g, x), {k}))) < w.unresolved
    ensures Safe(t, w, root, p, b, Drop(Merge(g, x), {k}))
  {
    MergeGet(g, x, Defs);
    MergeGet(g, x, Definitions);
    DropGet(Merge(g, x), {k}, Defs);
    DropGet(Merge(g, x), {k}, Definitions);
    SafeKept(t, w, root, p, b, g, Drop(Merge(g, x), {k}));
  }

  lemma SafeResolves(t: Table, w: Weights, root: Json, p: seq<nat>, b: nat, g: Fields, key: DefKey)
    requires Matching(t, w) && ValidPath(root, p) && Safe(t, w, root, p, b, g)
    requires key in t.of && w.of[key] < b
    ensures var doc := PutAt(root, p, Obj(g)); Solved(t, doc, key) && Good(w, doc, key)
  {
  }

  lemma {:induction false} InlineAgrees(t: Table, w: Weights, root: Json, p: seq<nat>, b: nat, f: Fields, limit: nat)
    requires Matching(t, w) && ValidPath(root, p) && Safe(t, w, root, p, b, f)
    requires Weight(w, Obj(f)) <= b <= w.unresolved && Weight(w, Obj(f)) < w.unresolved &&
             Weight(w, Obj(f)) <= limit + 1
    requires Domain(t, Obj(f)) && UniqueFields(f) && UniqueFields(Drop(f, {Default})) && Inlines(Drop(f, {Default}))
    ensures NormDict(root, p, f, limit) == Ok(Pure(t, Obj(f)))
    decreases limit, 10
  {
    var d := InlineTarget(t, w, root, p, b, f);
    MergedAgrees(t, w, root, p, b, Drop(f, {Default}), d, Ref, limit);
  }

  /** What the `$ref` resolves to, and why the merged node can be rewritten in turn. */
  lemma InlineTarget(t: Table, w: Weights, root: Json, p: seq<nat>, b: nat, f: Fields) returns (d: Fields)
    requires Matching(t, w) && ValidPath(root, p) && Safe(t, w, root, p, b, f)
    requires Weight(w, Obj(f)) <= b <= w.unresolved && Weight(w, Obj(f)) < w.unresolved
    requires Domain(t, Obj(f)) && UniqueFields(Drop(f, {Default})) && Inlines(Drop(f, {Default}))
    ensures var g := Drop(f, {Default});
            && Resolve(PutAt(root, p, Obj(g)), StrRef(g).value) == Ok(d)
            && Safe(t, w, root, p, b, g)
            && var m := Obj(Inlined(g, d));
               Weight(w, m) < Weight(w, Obj(f)) && Domain(t, m) && Unique(m) && Pure(t, m) == Pure(t, Obj(f))
  {
    var g := Drop(f, {Default});
    StrRefDropped(f);
    SafeWithoutDefault(t, w, root, p, b, f);
    var ref := StrRef(g).value;
    var key := Names2(ref).value;
    SafeResolves(t, w, root, p, b, g, key);
    var doc := PutAt(root, p, Obj(g));
    ResolveDef(doc, ref);
    d := Def(doc, key).value.fields;
    InlineLighter(w, f, d);
    InlinedFits(t, f, d, key);
  }

  lemma SafeWithoutDefault(t: Table, w: Weights, root: Json, p: seq<nat>, b: nat, f: Fields)
    requires Matching(t, w) && ValidPath(root, p) && Safe(t, w, root, p, b, f) && Weight(w, Obj(f)) < w.unresolved
    ensures Safe(t, w, root, p, b, Drop(f, {Default}))
  {
    DropGet(f, {Default}, Defs);
    DropGet(f, {Default}, Definitions);
    WeightWithoutDefault(w, f);
    SafeKept(t, w, root, p, b, f, Drop(f, {Default}));
  }

  lemma InlinedFits(t: Table, f: Fields, d: Fields, key: DefKey)
    requires Domain(t, Obj(f)) && UniqueFields(Drop(f, {Default})) && Inlines(Drop(f, {Default}))
    requires Names2(StrRef(Drop(f, {Default})).value) == Some(key) && key in t.of
    requires Domain(t, Obj(d)) && Unique(Obj(d)) && Pure(t, Obj(d)) == Obj(t.of[key]) && !Has(d, Ref)
    ensures var m := Obj(Inlined(Drop(f, {Default}), d));
            Domain(t, m) && Unique(m) && Pure(t, m) == Pure(t, Obj(f))
  {
    var g := Drop(f, {Default});
    InlineKeepsDomain(t, f, d);
    InlineKeepsPure(t, f, d, key);
    UniqueObj(d);
    UniqueMerge(g, d);
    UniqueDrop(Merge(g, d), {Ref});
    ObjUnique(Inlined(g, d));
  }

  lemma WeightWithoutDefault(w: Weights, f: Fields)
    ensures Weight(w, Obj(Drop(f, {Default}))) <= Weight(w, Obj(f))
  {
    WeightDrop(w, f, {Default});
    StrRefDropped(f);
    NoDefault(f);
  }

  lemma ShapedPure(t: Table, g: Fields)
    ensures PureFields(t, Shaped(g)) == Shaped(PureFields(t, g))
  {
    var d, G := SetDefaults(g), PureFields(t, g);
    PureKeys(t, g, Type);
    PureKeys(t, g, Properties);
    PureKeys(t, g, AdditionalProperties);
    assert PureFields(t, d) == SetDefaults(G);
    PureKeys(t, d, Properties);
    PureKeys(t, d, Required);
    if Has(d, Properties) && Value(d, Properties).Obj? {
      var ps := Value(d, Properties).fields;
      var D := PureFields(t, d);
      assert D[Index(d, Properties)] == PureField(t, d[Index(d, Properties)]) ==
        Field(Properties, Obj(PureValues(t, ps)));
      assert Names(PureValues(t, ps)) == Names(ps);
      var x := Field(Required, Arr(Names(ps)));
      assert PureField(t, x) == x;
      assert PureFields(t, SetRequired(d)) == SetRequired(D);
    } else if Has(d, Properties) {
      var D := PureFields(t, d);
      assert D[Index(d, Properties)] == PureField(t, d[Index(d, Properties)]);
    }
  }

  lemma ShapedInert(g: Fields)
    requires InertBeside(g, AllOf)
    ensures Shaped(g) == g
  {
  }

  lemma {:induction false} PlainAgrees(
      t: Table, w: Weights, root: Json, p: seq<nat>, b: nat, f: Fields, g: Fields, limit: nat)
    requires Matching(t, w) && ValidPath(root, p) && Safe(t, w, root, p, b, f)
    requires Get(g, Defs) == Get(f, Defs) && Get(g, Definitions) == Get(f, Definitions)
    requires Load(w, g) < b <= w.unresolved && 1 + Load(w, g) < w.unresolved && Load(w, g) <= limit
    requires !Has(g, Default) && !Inlines(g) && TopDomain(t, g) && FieldsDomain(t, g) && UniqueFields(g)
    ensures NormPlain(root, p, g, limit) == Ok(Obj(Top(t, PureFields(t, g))))
    decreases limit, 9
  {
    var s := Shaped(g);
    StartsMidway(t, w, root, p, b, f, g, limit);
    var h := FirstSteps(t, w, root, p, b, s, limit);
    AfterFirst(t, w, root, p, b, g, h, limit);
  }

  lemma {:induction false} FirstSteps(
      t: Table, w: Weights, root: Json, p: seq<nat>, b: nat, s: Fields, limit: nat) returns (h: Fields)
    requires Midway(t, w, root, p, b, s, limit)
    ensures NormFirst(root, p, s, limit) == Ok(h)
    ensures Midway(t, w, root, p, b, h, limit) && PureFields(t, h) == PureFields(t, s)
    decreases limit, 7
  {
    KeyStep(t, w, root, p, b, s, Properties, limit);
    var f1 := NormKey(root, p, s, Properties, limit).value;
    KeyStep(t, w, root, p, b, f1, Items, limit);
    var f2 := NormKey(root, p, f1, Items, limit).value;
    KeyStep(t, w, root, p, b, f2, Defs, limit);
    var f3 := NormKey(root, p, f2, Defs, limit).value;
    KeyStep(t, w, root, p, b, f3, Definitions, limit);
    h := NormKey(root, p, f3, Definitions, limit).value;
  }

  lemma {:induction false} LastSteps(
      t: Table, w: Weights, root: Json, p: seq<nat>, b: nat, h: Fields, limit: nat) returns (r: Fields)
    requires Midway(t, w, root, p, b, h, limit) && !SingleAllOf(h)
    ensures NormLast(root, p, h, limit) == Ok(r) && UniqueFields(r) && PureFields(t, r) == PureFields(t, h)
    decreases limit, 7
  {
    KeyStep(t, w, root, p, b, h, AnyOf, limit);
    var f1 := NormKey(root, p, h, AnyOf, limit).value;
    KeyFrameGet(root, p, h, AnyOf, limit, AllOf);
    KeyStep(t, w, root, p, b, f1, OneOf, limit);
    var f2 := NormKey(root, p, f1, OneOf, limit).value;
    KeyFrameGet(root, p, f1, OneOf, limit, AllOf);
    KeyStep(t, w, root, p, b, f2, AllOf, limit);
    r := NormKey(root, p, f2, AllOf, limit).value;
  }

  lemma {:induction false} AfterFirst(
      t: Table, w: Weights, root: Json, p: seq<nat>, b: nat, g: Fields, h: Fields, limit: nat)
    requires Midway(t, w, root, p, b, h, limit) && Shapely(Shaped(g)) && NormFirst(root, p, Shaped(g), limit) == Ok(h)
    requires !Inlines(g) && TopDomain(t, g) && PureFields(t, h) == PureFields(t, Shaped(g))
    ensures NormTail(root, p, h, limit) == Ok(Obj(Top(t, PureFields(t, g))))
    decreases limit, 8, 1
  {
    FirstKeysNormal(root, p, Shaped(g), limit);
    FirstKeepsAllOf(root, p, Shaped(g), limit);
    ShapedGet(g, AllOf);
    TailAgrees(t, w, root, p, b, g, h, limit);
  }

  lemma StartsMidway(t: Table, w: Weights, root: Json, p: seq<nat>, b: nat, f: Fields, g: Fields, limit: nat)
    requires Matching(t, w) && ValidPath(root, p) && Safe(t, w, root, p, b, f)
    requires Get(g, Defs) == Get(f, Defs) && Get(g, Definitions) == Get(f, Definitions)
    requires Load(w, g) < b <= w.unresolved && 1 + Load(w, g) < w.unresolved && Load(w, g) <= limit
    requires !Has(g, Default) && !Inlines(g) && FieldsDomain(t, g) && UniqueFields(g)
    ensures Midway(t, w, root, p, b, Shaped(g), limit) && Shapely(Shaped(g))
  {
    var s := Shaped(g);
    LoadShaped(w, g);
    ShapedTop(g);
    NotInlining(w, s);
    ShapedGet(g, Defs);
    ShapedGet(g, Definitions);
    SafeKept(t, w, root, p, b, f, s);
    UniqueShaped(g);
    ShapedDomain(t, g);
  }

  lemma FirstKeepsAllOf(root: Json, p: seq<nat>, s: Fields, limit: nat)
    requires ValidPath(root, p) && NormFirst(root, p, s, limit).Ok?
    ensures var h := NormFirst(root, p, s, limit).value; Get(h, AllOf) == Get(s, AllOf) && SameNames(h, s)
  {
    var f1 := NormKey(root, p, s, Properties, limit).value;
    var f2 := NormKey(root, p, f1, Items, limit).value;
    var f3 := NormKey(root, p, f2, Defs, limit).value;
    KeyFrameGet(root, p, s, Properties, limit, AllOf);
    KeyFrameGet(root, p, f1, Items, limit, AllOf);
    KeyFrameGet(root, p, f2, Defs, limit, AllOf);
    KeyFrameGet(root, p, f3, Definitions, limit, AllOf);
    KeyFrame(root, p, s, Properties, limit);
    KeyFrame(root, p, f1, Items, limit);
    KeyFrame(root, p, f2, Defs, limit);
    KeyFrame(root, p, f3, Definitions, limit);
  }

  lemma ShapedDomain(t: Table, g: Fields)
    requires FieldsDomain(t, g)
    ensures FieldsDomain(t, Shaped(g))
  {
  }

  lemma {:induction false} TailAgrees(
      t: Table, w: Weights, root: Json, p: seq<nat>, b: nat, g: Fields, h: Fields, limit: nat)
    requires Midway(t, w, root, p, b, h, limit) && Shapely(h) && Done(h, FIRST_KEYS, limit)
    requires !Inlines(g) && TopDomain(t, g)
    requires Get(h, AllOf) == Get(g, AllOf) && SameNames(h, Shaped(g))
    requires PureFields(t, h) == PureFields(t, Shaped(g))
    ensures NormTail(root, p, h, limit) == Ok(Obj(Top(t, PureFields(t, g))))
    decreases limit, 8, 0
  {
    if SingleAllOf(h) {
      ShapedInert(g);
      CollapseAgrees(t, w, root, p, b, g, h, limit);
    } else {
      var r := LastSteps(t, w, root, p, b, h, limit);
      LastKeysNormal(root, p, h, limit);
      ObjUnique(r);
      PureFieldsOfNormal(t, r, limit + 1);
      TopPlain(t, g);
    }
  }

  lemma TopPlain(t: Table, g: Fields)
    requires !Inlines(g) && !SingleAllOf(g)
    ensures Top(t, PureFields(t, g)) == PureFields(t, Shaped(g))
  {
    ShapedPure(t, g);
    PureNotSingle(t, g);
    PureRef(t, g);
  }

  lemma PureNotSingle(t: Table, g: Fields)
    ensures SingleAllOf(PureFields(t, g)) <==> SingleAllOf(g)
  {
    PureKeys(t, g, AllOf);
    if Has(g, AllOf) {
      var i, v := Index(g, AllOf), Value(g, AllOf);
      assert PureFields(t, g)[i] == PureField(t, g[i]) == Field(AllOf, PureMembers(t, v));
      assert v.Arr? ==> PureMembers(t, v) == Arr(PureItems(t, v.items));
      assert PureMembers(t, v).Arr? == v.Arr?;
    }
  }

  lemma PureFieldsOfNormal(t: Table, r: Fields, d: nat)
    requires Normal(Obj(r), d) && Unique(Obj(r))
    ensures PureFields(t, r) == r
  {
    forall i | 0 <= i < |r| ensures PureField(t, r[i]) == r[i] {
      IndexOfDistinct(r, i);
      FieldOfNormal(t, Obj(r), r, i, d - 1);
    }
  }

  lemma {:induction false} CollapseAgrees(
      t: Table, w: Weights, root: Json, p: seq<nat>, b: nat, g: Fields, h: Fields, limit: nat)
    requires Midway(t, w, root, p, b, h, limit) && Shapely(h)
    requires !Inlines(g) && TopDomain(t, g) && SingleAllOf(h) && Get(h, AllOf) == Get(g, AllOf)
    requires SameNames(h, g) && PureFields(t, h) == PureFields(t, g)
    ensures NormTail(root, p, h, limit) == Ok(Obj(Top(t, PureFields(t, g))))
    decreases limit, 7
  {
    var x := Member(h).fields;
    assert Member(h) == Member(g) && InertBeside(h, AllOf);
    NoRefBesideAllOf(h);
    MemberDomain(t, h);
    CollapseLighter(w, h);
    CollapseKeepsDomain(t, g, h);
    CollapseKeepsPure(t, g, h);
    UniqueMember(h);
    UniqueMerge(h, x);
    UniqueDrop(Merge(h, x), {AllOf});
    ObjUnique(Collapsed(h, x));
    MergedAgrees(t, w, root, p, b, h, x, AllOf, limit);
  }

  /**
   The in-place rewriter and the pure normaliser agree: with finished definitions `t` and a
   certificate of acyclicity `w`, rewriting the document in place yields the pure result.
   */
  lemma InPlaceIsPure(t: Table, w: Weights, schema: Fields, limit: nat)
    requires Matching(t, w) && RootSolved(t, w, schema)
    requires Domain(t, Obj(schema)) && Unique(Obj(schema))
    requires Weight(w, Obj(schema)) <= limit
    ensures Normalize(Obj(schema), limit) == Ok(Pure(t, Obj(schema)))
  {
    NodeOfDict(Obj(schema), [], schema, limit);
    DictAgrees(t, w, Obj(schema), [], w.unresolved, schema, limit - 1);
  }
}
