/**
 Acyclicity of the relation "contains a `$ref` with siblings to", and the weights it provides. The sole
 member of an `allOf` that has siblings counts as a `$ref` with siblings, since that is what it becomes.
 */
module SchemaAcyclicity {
  import opened Options
  import opened Json
  import opened SchemaNormalizer
  import opened SchemaDefinitions
  import opened SchemaTermination

  function OwnRef(f: Fields): set<string> {
    if StrRef(f).Some? then {StrRef(f).value} else {}
  }

  /** The `$ref` of the only member of an `allOf`. */
  function MemberRefs(g: Fields): set<string> {
    if SingleAllOf(g) && Member(g).Obj? then OwnRef(Member(g).fields) else {}
  }

  /** The `$ref`s a rewrite of `n` can inline without inlining anything else first. */
  function Refs(n: Json): set<string>
    decreases n, 1
  {
    match n
    case Obj(f) =>
      var g := Drop(f, {Default});
      FieldsRefs(f) + (if Inlines(g) then OwnRef(f) else {}) + (if |g| > 1 then MemberRefs(g) else {})
    case Arr(xs) => ItemsRefs(xs)
    case _ => {}
  }

  /** Those of a definition where it is inlined: there it always has siblings. */
  function InlinedRefs(f: Fields): set<string> {
    Refs(Obj(f)) + MemberRefs(Drop(f, {Default}))
  }

  function FieldsRefs(f: Fields): set<string>
    decreases f, 0
  {
    if f == [] then {} else FieldRefs(f[0]) + FieldsRefs(f[1..])
  }

  function FieldRefs(x: Field): set<string>
    decreases x, 0
  {
    match x.key
    case Items => Refs(x.value)
    case Properties | Defs | Definitions | AnyOf | OneOf | AllOf => MembersRefs(x.value)
    case _ => {}
  }

  function MembersRefs(v: Json): set<string>
    decreases v, 0
  {
    match v
    case Obj(f) => ValuesRefs(f)
    case Arr(xs) => ItemsRefs(xs)
    case _ => {}
  }

  function ValuesRefs(f: Fields): set<string>
    decreases f, 0
  {
    if f == [] then {} else ValueRefs(f[0]) + ValuesRefs(f[1..])
  }

  function ValueRefs(x: Field): set<string>
    decreases x, 0
  {
    Refs(x.value)
  }

  function ItemsRefs(xs: seq<Json>): set<string>
    decreases xs, 0
  {
    if xs == [] then {} else Refs(xs[0]) + ItemsRefs(xs[1..])
  }

  // ---- weights depend on nothing but the costs of these `$ref`s ----------------------------

  ghost predicate Agree(w: Weights, v: Weights, refs: set<string>) {
    forall ref | ref in refs :: Cost(w, ref) == Cost(v, ref)
  }

  lemma {:induction false} WeightAgrees(w: Weights, v: Weights, n: Json)
    requires Agree(w, v, Refs(n))
    ensures Weight(w, n) == Weight(v, n)
    decreases n, 1
  {
    match n
    case Obj(f) => FieldsAgree(w, v, f);
    case Arr(xs) => ItemsAgree(w, v, xs);
    case _ =>
  }

  lemma InlinedAgrees(w: Weights, v: Weights, f: Fields)
    requires Agree(w, v, InlinedRefs(f))
    ensures InlinedWeight(w, f) == InlinedWeight(v, f)
  {
    FieldsAgree(w, v, f);
  }

  lemma {:induction false} FieldsAgree(w: Weights, v: Weights, f: Fields)
    requires Agree(w, v, FieldsRefs(f))
    ensures FieldsWeight(w, f) == FieldsWeight(v, f)
    decreases f, 0
  {
    if f != [] {
      FieldAgrees(w, v, f[0]);
      FieldsAgree(w, v, f[1..]);
    }
  }

  lemma {:induction false} FieldAgrees(w: Weights, v: Weights, x: Field)
    requires Agree(w, v, FieldRefs(x))
    ensures FieldWeight(w, x) == FieldWeight(v, x)
    decreases x, 0
  {
    match x.key
    case Items => WeightAgrees(w, v, x.value);
    case Properties | Defs | Definitions | AnyOf | OneOf | AllOf => MembersAgree(w, v, x.value);
    case _ =>
  }

  lemma {:induction false} MembersAgree(w: Weights, v: Weights, c: Json)
    requires Agree(w, v, MembersRefs(c))
    ensures MembersWeight(w, c) == MembersWeight(v, c)
    decreases c, 0
  {
    match c
    case Obj(f) => ValuesAgree(w, v, f);
    case Arr(xs) => ItemsAgree(w, v, xs);
    case _ =>
  }

  lemma {:induction false} ValuesAgree(w: Weights, v: Weights, f: Fields)
    requires Agree(w, v, ValuesRefs(f))
    ensures ValuesWeight(w, f) == ValuesWeight(v, f)
    decreases f, 0
  {
    if f != [] {
      ValueAgrees(w, v, f[0]);
      ValuesAgree(w, v, f[1..]);
    }
  }

  lemma {:induction false} ValueAgrees(w: Weights, v: Weights, x: Field)
    requires Agree(w, v, ValueRefs(x))
    ensures ValueWeight(w, x) == ValueWeight(v, x)
    decreases x, 0
  {
    WeightAgrees(w, v, x.value);
  }

  lemma {:induction false} ItemsAgree(w: Weights, v: Weights, xs: seq<Json>)
    requires Agree(w, v, ItemsRefs(xs))
    ensures ItemsWeight(w, xs) == ItemsWeight(v, xs)
    decreases xs, 0
  {
    if xs != [] {
      WeightAgrees(w, v, xs[0]);
      ItemsAgree(w, v, xs[1..]);
    }
  }

  // ---- building the weights of an acyclic schema -------------------------------------------

  type Ranks = map<DefKey, nat>

  predicate Resolved(rank: Ranks, targets: set<DefKey>, broken: set<string>, refs: set<string>, below: nat) {
    forall ref | ref in refs && ref !in broken ::
      Names2(ref).Some? && Names2(ref).value in rank && Names2(ref).value in targets && rank[Names2(ref).value] < below
  }

  /** The `$ref`s that matter for a definition: if it may be inlined, those it has then. */
  function DefRefs(targets: set<DefKey>, key: DefKey, d: Fields): set<string> {
    if key in targets then InlinedRefs(d) else Refs(Obj(d))
  }

  /** Every definition is a dictionary whose inlinable `$ref`s name targets of smaller rank, or raise. */
  predicate Ranked(rank: Ranks, targets: set<DefKey>, broken: set<string>, f: Fields) {
    forall key | key in rank ::
      && key.0 in {Defs, Definitions}
      && Def(Obj(f), key).Some? && Def(Obj(f), key).value.Obj?
      && Resolved(rank, targets, broken, DefRefs(targets, key, Def(Obj(f), key).value.fields), rank[key])
  }

  /**
   `rank` orders definitions of the schema, and everything the rewrite of the schema can inline resolves to
   one of the `targets` among them, or raises. Definitions that are not inlined need no rank.
   */
  predicate Acyclic(rank: Ranks, targets: set<DefKey>, broken: set<string>, f: Fields) {
    && Ranked(rank, targets, broken, f)
    && (forall ref | ref in broken :: Raises(f, ref))
    && forall ref | ref in Refs(Obj(f)) && ref !in broken ::
         Names2(ref).Some? && Names2(ref).value in rank && Names2(ref).value in targets
  }

  function DefWeight(f: Fields, targets: set<DefKey>, broken: set<string>, t: map<DefKey, nat>, key: DefKey): nat {
    var d, w := Def(Obj(f), key), Weights(t, targets, broken, 0);
    if d.None? || !d.value.Obj? then 0
    else if key in targets then InlinedWeight(w, d.value.fields)
    else Weight(w, d.value)
  }

  /** Weights of the definitions of rank below `n`, each computed from those below it. */
  function Table(rank: Ranks, targets: set<DefKey>, broken: set<string>, f: Fields, n: nat): (t: map<DefKey, nat>)
    ensures t.Keys == Below(rank, n)
  {
    if n == 0 then map[] else Extended(rank, targets, broken, f, n - 1, Table(rank, targets, broken, f, n - 1))
  }

  function Below(rank: Ranks, n: nat): set<DefKey> {
    set key | key in rank && rank[key] < n
  }

  function Extended(
      rank: Ranks, targets: set<DefKey>, broken: set<string>, f: Fields, n: nat, t: map<DefKey, nat>)
      : (r: map<DefKey, nat>)
    requires t.Keys == Below(rank, n)
    ensures r.Keys == Below(rank, n + 1)
    ensures forall key | key in t :: r[key] == t[key]
  {
    map key | key in Below(rank, n + 1) :: if key in t then t[key] else DefWeight(f, targets, broken, t, key)
  }

  predicate Shares(t: map<DefKey, nat>, u: map<DefKey, nat>, key: DefKey) {
    key in t && key in u && t[key] == u[key]
  }

  lemma TableStep(rank: Ranks, targets: set<DefKey>, broken: set<string>, f: Fields, n: nat, key: DefKey)
    requires key in Below(rank, n)
    ensures Shares(Table(rank, targets, broken, f, n), Table(rank, targets, broken, f, n + 1), key)
  {
    assert Table(rank, targets, broken, f, n + 1) ==
      Extended(rank, targets, broken, f, n, Table(rank, targets, broken, f, n));
  }

  lemma BelowGrows(rank: Ranks, m: nat, n: nat, key: DefKey)
    requires m <= n && key in Below(rank, m)
    ensures key in Below(rank, n)
  {
  }

  lemma {:induction false} TableGrows(
      rank: Ranks, targets: set<DefKey>, broken: set<string>, f: Fields, m: nat, n: nat, key: DefKey)
    requires m <= n && key in Below(rank, m)
    ensures Shares(Table(rank, targets, broken, f, m), Table(rank, targets, broken, f, n), key)
    decreases n - m
  {
    if m < n {
      TableStep(rank, targets, broken, f, m, key);
      BelowGrows(rank, m, m + 1, key);
      TableGrows(rank, targets, broken, f, m + 1, n, key);
    }
  }

  lemma TableEntry(rank: Ranks, targets: set<DefKey>, broken: set<string>, f: Fields, n: nat, key: DefKey)
    requires key in rank && rank[key] < n
    ensures key in Below(rank, n)
    ensures Table(rank, targets, broken, f, n)[key] ==
            DefWeight(f, targets, broken, Table(rank, targets, broken, f, rank[key]), key)
  {
    var r := rank[key];
    assert Table(rank, targets, broken, f, r + 1) ==
      Extended(rank, targets, broken, f, r, Table(rank, targets, broken, f, r));
    TableGrows(rank, targets, broken, f, r + 1, n, key);
  }

  /** Each entry is the weight of its definition, whatever the table is extended with. */
  lemma TableSolves(
      rank: Ranks, targets: set<DefKey>, broken: set<string>, f: Fields, n: nat, u: nat, key: DefKey, d: Fields)
    requires key in rank && rank[key] < n
    requires Def(Obj(f), key) == Some(Obj(d)) && Resolved(rank, targets, broken, DefRefs(targets, key, d), rank[key])
    ensures key in Below(rank, n)
    ensures var w := Weights(Table(rank, targets, broken, f, n), targets, broken, u);
            w.of[key] == if key in targets then InlinedWeight(w, d) else Weight(w, Obj(d))
  {
    var v := Weights(Table(rank, targets, broken, f, rank[key]), targets, broken, 0);
    var w := Weights(Table(rank, targets, broken, f, n), targets, broken, u);
    TableEntry(rank, targets, broken, f, n, key);
    TablesAgree(rank, targets, broken, f, rank[key], n, u, DefRefs(targets, key, d));
    if key in targets { InlinedAgrees(v, w, d); } else { WeightAgrees(v, w, Obj(d)); }
  }

  lemma TablesAgree(
      rank: Ranks, targets: set<DefKey>, broken: set<string>, f: Fields, m: nat, n: nat, u: nat, refs: set<string>)
    requires m <= n && Resolved(rank, targets, broken, refs, m)
    ensures Agree(Weights(Table(rank, targets, broken, f, m), targets, broken, 0),
            Weights(Table(rank, targets, broken, f, n), targets, broken, u), refs)
  {
    forall ref | ref in refs
      ensures Cost(Weights(Table(rank, targets, broken, f, m), targets, broken, 0), ref) ==
              Cost(Weights(Table(rank, targets, broken, f, n), targets, broken, u), ref)
    {
      if ref !in broken { TableGrows(rank, targets, broken, f, m, n, Names2(ref).value); }
    }
  }

  lemma {:induction false} Bounded<K>(m: map<K, nat>) returns (b: nat)
    ensures forall k | k in m :: m[k] <= b
    decreases |m|
  {
    if m == map[] {
      b := 0;
    } else {
      var k :| k in m;
      var rest := m - {k};
      b := Bounded(rest);
      forall q | q in m ensures m[q] <= b + m[k] {
        if q != k { assert q in rest; }
      }
      b := b + m[k];
    }
  }

  lemma TableIsGood(rank: Ranks, targets: set<DefKey>, broken: set<string>, f: Fields, n: nat, u: nat, key: DefKey)
    requires Ranked(rank, targets, broken, f) && key in rank && rank[key] < n
    ensures var w := Weights(Table(rank, targets, broken, f, n), targets, broken, u);
            key in w.of && Good(w, Obj(f), key)
  {
    var w, d := Weights(Table(rank, targets, broken, f, n), targets, broken, u), Def(Obj(f), key).value.fields;
    TableSolves(rank, targets, broken, f, n, u, key, d);
    InlinedHeavier(w, d);
  }

  lemma InlinedHeavier(w: Weights, d: Fields)
    ensures Weight(w, Obj(d)) <= InlinedWeight(w, d)
  {
  }

  lemma AllBelow(rank: Ranks, n: nat)
    requires forall key | key in rank :: rank[key] < n
    ensures Below(rank, n) == rank.Keys
  {
  }

  /** An acyclic schema has a certificate. */
  lemma AcyclicWeights(rank: Ranks, targets: set<DefKey>, broken: set<string>, schema: Fields) returns (w: Weights)
    requires Acyclic(rank, targets, broken, schema)
    ensures w.of.Keys == rank.Keys && w.broken == broken && Weighed(w, schema)
  {
    var top := Bounded(rank);
    var n := top + 1;
    AllBelow(rank, n);
    var t := Table(rank, targets, broken, schema, n);
    var b := Bounded(t);
    var a := Weight(Weights(t, targets, broken, 0), Obj(schema));
    w := Weights(t, targets, broken, a + b + 1);
    TablesAgree(rank, targets, broken, schema, n, n, w.unresolved, Refs(Obj(schema)));
    WeightAgrees(Weights(t, targets, broken, 0), w, Obj(schema));
    forall key | key in w.of ensures Good(w, Obj(schema), key) {
      TableIsGood(rank, targets, broken, schema, n, w.unresolved, key);
    }
  }

  /**
   An acyclic schema has a recursion depth that suffices: from its expanded weight on, the rewriter
   never hits the recursion limit.
   */
  lemma AcyclicHalts(rank: Ranks, targets: set<DefKey>, broken: set<string>, schema: Fields) returns (w: Weights)
    requires Acyclic(rank, targets, broken, schema)
    ensures w.of.Keys == rank.Keys
    ensures forall limit: nat | limit >= Weight(w, Obj(schema)) :: Normalize(Obj(schema), limit) != Err(RecursionLimit)
  {
    w := AcyclicWeights(rank, targets, broken, schema);
    forall limit: nat | limit >= Weight(w, Obj(schema)) ensures Normalize(Obj(schema), limit) != Err(RecursionLimit) {
      NormalizeHalts(w, schema, limit);
    }
  }
}
