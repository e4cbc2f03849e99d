/**
 Exactly when the rewriter returns: on schemas in the domain of `FinishedDefinitions`, with or without cycles,
 whose inlined definitions are neither a `$ref` nor a single `allOf` and hold no definitions of their own.
 */
module SchemaReturns {
  import opened Json
  import opened SchemaNormalizer
  import opened SchemaDefinitions
  import opened SchemaTermination
  import opened PureNormalizer
  import opened SchemaCycles
  import SA = SchemaAcyclicity
  import F = FinishedDefinitions

  // ---- no definitions inside, no list of properties ----------------------------------------

  predicate Tame(n: Json)
    decreases n, 1
  {
    match n
    case Obj(f) =>
      && !Has(f, Defs) && !Has(f, Definitions) && (Has(f, Properties) ==> !Value(f, Properties).Arr?)
      && forall k | k in NESTED_KEYS :: TameUnder(n, f, k)
    case Arr(_) => forall i | 0 <= i < Size(n) :: Tame(Child(n, i))
    case _ => true
  }

  predicate TameUnder(n: Json, f: Fields, k: Name)
    requires n == Obj(f)
    decreases n, 0
  {
    Has(f, k) ==>
      var v := f[Index(f, k)].value;
      if k == Items then Tame(v) else forall i | 0 <= i < Size(v) :: Tame(Child(v, i))
  }

  // ---- where a `$ref` that can be inlined stands -------------------------------------------

  lemma {:induction false} FieldHolding(f: Fields, ref: string) returns (i: nat)
    requires ref in SA.FieldsRefs(f)
    ensures i < |f| && ref in SA.FieldRefs(f[i])
  {
    if ref in SA.FieldRefs(f[0]) {
      i := 0;
    } else {
      i := FieldHolding(f[1..], ref);
      i := i + 1;
    }
  }

  lemma MemberHolding(c: Json, ref: string) returns (j: nat)
    requires ref in SA.MembersRefs(c)
    ensures j < Size(c) && ref in SA.Refs(Child(c, j))
  {
    if c.Obj? { j := ValueHolding(c.fields, ref); } else { j := ItemHolding(c.items, ref); }
  }

  lemma {:induction false} ValueHolding(f: Fields, ref: string) returns (j: nat)
    requires ref in SA.ValuesRefs(f)
    ensures j < |f| && ref in SA.Refs(f[j].value)
  {
    if ref in SA.ValueRefs(f[0]) {
      j := 0;
    } else {
      j := ValueHolding(f[1..], ref);
      j := j + 1;
    }
  }

  lemma {:induction false} ItemHolding(xs: seq<Json>, ref: string) returns (j: nat)
    requires ref in SA.ItemsRefs(xs)
    ensures j < |xs| && ref in SA.Refs(xs[j])
  {
    if ref in SA.Refs(xs[0]) {
      j := 0;
    } else {
      j := ItemHolding(xs[1..], ref);
      j := j + 1;
    }
  }

  // ---- inert siblings ----------------------------------------------------------------------

  lemma DistinctIndex(f: Fields, i: nat)
    requires Distinct(f) && i < |f|
    ensures Has(f, f[i].key) && Index(f, f[i].key) == i
  {
    IndexIs(f, f[i].key, i);
  }

  /** Beside the keyword there are annotations only. */
  lemma InertNestless(f: Fields, k: Name)
    requires InertBeside(Drop(f, {Default}), k) && k in {Ref, AllOf}
    ensures Nestless(f, {k}) && Nestless(Drop(f, {Default}), {k}) && (k == AllOf ==> !Has(f, Ref))
  {
    var g := Drop(f, {Default});
    forall q | q in NESTED_KEYS + {Ref} && q != k ensures !Has(f, q) && !Has(g, q) {
      DropGet(f, {Default}, q);
      HasIff(g, q);
    }
  }

  /** With a second field there is an annotation. */
  lemma SecondField(f: Fields, k: Name) returns (q: Name)
    requires var g := Drop(f, {Default}); InertBeside(g, k) && |g| > 1 && Distinct(g)
    requires !Has(f, Defs) && !Has(f, Definitions)
    ensures q.Text? && Has(f, q)
  {
    var g := Drop(f, {Default});
    var i := if g[0].key == k then 1 else 0;
    q := g[i].key;
    DistinctIndex(g, i);
    DropGet(f, {Default}, q);
  }

  // ---- the `$ref`s of a node that lead into a cycle are hits -------------------------------

  lemma {:induction false} RefsHit(t: Table, c: set<DefKey>, n: Json, ref: string)
    requires Domain(t, n) && Tame(n) && Unique(n) && ref in SA.Refs(n) && Cyclic(c, ref)
    ensures Hits(c, n)
    decreases n, 3
  {
    if n.Obj? {
      var f := n.fields;
      if ref in SA.FieldsRefs(f) {
        FieldRefHits(t, c, n, f, ref);
      } else if Inlines(Drop(f, {Default})) && ref in SA.OwnRef(f) {
        OwnRefHits(t, c, f, ref);
      } else {
        MemberRefHits(t, c, n, f, ref);
      }
    } else {
      ItemRefHits(t, c, n, ref);
    }
  }

  lemma OwnRefHits(t: Table, c: set<DefKey>, f: Fields, ref: string)
    requires Domain(t, Obj(f)) && Inlines(Drop(f, {Default})) && ref in SA.OwnRef(f) && Cyclic(c, ref)
    ensures Hits(c, Obj(f))
  {
    StrRefDropped(f);
    InertNestless(f, Ref);
    assert OwnHit(c, Drop(f, {Default}));
  }

  lemma {:induction false} ItemRefHits(t: Table, c: set<DefKey>, n: Json, ref: string)
    requires n.Arr? && Domain(t, n) && Tame(n) && Unique(n) && ref in SA.Refs(n) && Cyclic(c, ref)
    ensures Hits(c, n)
    decreases n, 2
  {
    var j := ItemHolding(n.items, ref);
    assert Child(n, j) == n.items[j];
    RefsHit(t, c, n.items[j], ref);
  }

  lemma {:induction false} FieldRefHits(t: Table, c: set<DefKey>, n: Json, f: Fields, ref: string)
    requires n == Obj(f) && Domain(t, n) && Tame(n) && Unique(n) && ref in SA.FieldsRefs(f) && Cyclic(c, ref)
    ensures Hits(c, n)
    decreases n, 2
  {
    var i := FieldHolding(f, ref);
    var k := f[i].key;
    DistinctIndex(f, i);
    UnderRefHits(t, c, n, f, k, ref);
    if k == AllOf && SingleAllOf(f) { SoleFieldHits(t, c, n, f); }
  }

  lemma SoleFieldHits(t: Table, c: set<DefKey>, n: Json, f: Fields)
    requires n == Obj(f) && Domain(t, n) && Tame(n) && Unique(n) && SingleAllOf(f) && UnderHit(c, n, f, AllOf)
    ensures SoleHit(c, n, f)
  {
    SingleNotInlined(t, f);
    SoleMemberHit(c, n, f);
    MemberParts(t, f);
    MemberHits(t, c, n, f);
  }

  lemma SingleNotInlined(t: Table, f: Fields)
    requires Domain(t, Obj(f)) && SingleAllOf(f)
    ensures !Inlines(Drop(f, {Default}))
  {
    var g := Drop(f, {Default});
    DropGet(f, {Default}, AllOf);
    assert g[Index(g, AllOf)].key == AllOf;
  }

  lemma SoleMemberHit(c: set<DefKey>, n: Json, f: Fields)
    requires n == Obj(f) && SingleAllOf(f) && UnderHit(c, n, f, AllOf)
    ensures Hits(c, Member(f))
  {
    var v := f[Index(f, AllOf)].value;
    var j :| 0 <= j < Size(v) && Hits(c, Child(v, j));
    assert Child(v, 0) == Member(f);
  }

  lemma {:induction false} UnderRefHits(t: Table, c: set<DefKey>, n: Json, f: Fields, k: Name, ref: string)
    requires n == Obj(f) && Domain(t, n) && Tame(n) && Unique(n) && Has(f, k) && Cyclic(c, ref)
    requires ref in SA.FieldRefs(f[Index(f, k)])
    ensures k in NESTED_KEYS && UnderHit(c, n, f, k)
    decreases n, 1
  {
    var i := Index(f, k);
    var v := f[i].value;
    assert f[i].key == k && FieldDomain(t, f[i]) && TameUnder(n, f, k);
    UniqueChild(n, i);
    if k == Items {
      RefsHit(t, c, v, ref);
    } else {
      var j := MemberHolding(v, ref);
      UniqueChild(v, j);
      MemberDomain(t, v, j);
      RefsHit(t, c, Child(v, j), ref);
    }
  }

  lemma MemberDomain(t: Table, v: Json, j: nat)
    requires MembersDomain(t, v) && j < Size(v)
    ensures Domain(t, Child(v, j))
  {
    if v.Obj? { assert ValueDomain(t, v.fields[j]); }
  }

  lemma MemberParts(t: Table, f: Fields)
    requires Domain(t, Obj(f)) && Tame(Obj(f)) && Unique(Obj(f)) && SingleAllOf(f) && !Inlines(Drop(f, {Default}))
    ensures Member(f).Obj? && Domain(t, Member(f)) && Tame(Member(f)) && Unique(Member(f)) &&
            !Has(Member(f).fields, AllOf)
    ensures InertBeside(Drop(f, {Default}), AllOf)
  {
    var i := Index(f, AllOf);
    var v := f[i].value;
    DropGet(f, {Default}, AllOf);
    assert Member(Drop(f, {Default})) == Member(f) == Child(v, 0);
    assert FieldDomain(t, f[i]) && TameUnder(Obj(f), f, AllOf);
    MemberDomain(t, v, 0);
    UniqueChild(Obj(f), i);
    UniqueChild(v, 0);
  }

  /** A hit of the only member is one of the node. */
  lemma MemberHits(t: Table, c: set<DefKey>, n: Json, f: Fields)
    requires n == Obj(f) && SingleAllOf(f) && Member(f).Obj? && Domain(t, Member(f)) && Tame(Member(f)) &&
             Unique(Member(f))
    requires !Has(Member(f).fields, AllOf) && InertBeside(Drop(f, {Default}), AllOf) && Hits(c, Member(f))
    ensures SoleHit(c, n, f)
  {
    var x := Member(f).fields;
    InertNestless(f, AllOf);
    if OwnHit(c, Drop(x, {Default})) {
      UniqueObj(x);
      UniqueDrop(x, {Default});
      var q := SecondField(x, Ref);
      InertNestless(x, Ref);
      StrRefDropped(x);
      assert Companion(f, x, q);
      assert SoleRef(c, f, x);
    } else {
      assert !SingleAllOf(x) && Member(f) == Obj(x);
      assert InnerHit(c, Member(f), x);
      var k :| k in NESTED_KEYS && !(k == AllOf && SingleAllOf(x)) && UnderHit(c, Member(f), x, k);
      assert k in NESTED_KEYS - {AllOf};
    }
  }

  lemma MemberRefHits(t: Table, c: set<DefKey>, n: Json, f: Fields, ref: string)
    requires n == Obj(f) && Domain(t, n) && Tame(n) && Unique(n) && Cyclic(c, ref)
    requires |Drop(f, {Default})| > 1 && ref in SA.MemberRefs(Drop(f, {Default}))
    ensures Hits(c, n)
  {
    DropGet(f, {Default}, AllOf);
    SingleNotInlined(t, f);
    MemberParts(t, f);
    var x := Member(f).fields;
    InertNestless(f, AllOf);
    UniqueObj(f);
    UniqueDrop(f, {Default});
    var q := SecondField(f, AllOf);
    BareNestless(t, x);
    assert Companion(f, x, q);
    assert SoleRef(c, f, x);
  }

  lemma BareNestless(t: Table, x: Fields)
    requires Domain(t, Obj(x)) && StrRef(x).Some?
    ensures Nestless(x, {AllOf})
  {
    var g := Drop(x, {Default});
    StrRefDropped(x);
    if |g| > 1 {
      InertNestless(x, Ref);
    } else {
      forall k | k in NESTED_KEYS ensures !Has(x, k) {
        DropGet(x, {Default}, k);
        DropGet(x, {Default}, Ref);
        if Has(g, k) { TwoKeys(g, k, Ref); }
      }
    }
  }

  // ---- ranks, or a cycle -------------------------------------------------------------------

  /** What a rewrite can inline: dictionaries that name only each other. */
  predicate Closed(targets: set<DefKey>, f: Fields) {
    && (forall key | key in targets ::
          && key.0 in {Defs, Definitions} && Def(Obj(f), key).Some? && Def(Obj(f), key).value.Obj?
          && forall ref | ref in SA.InlinedRefs(Def(Obj(f), key).value.fields) :: Cyclic(targets, ref))
    && forall ref | ref in SA.Refs(Obj(f)) :: Cyclic(targets, ref)
  }

  /** The definition can be ranked above those ranked already. */
  predicate Rankable(rank: SA.Ranks, targets: set<DefKey>, f: Fields, key: DefKey)
    requires Closed(targets, f) && key in targets
  {
    forall ref | ref in SA.InlinedRefs(Def(Obj(f), key).value.fields) :: Cyclic(rank.Keys, ref)
  }

  predicate Ranking(rank: SA.Ranks, targets: set<DefKey>, f: Fields) {
    rank.Keys <= targets && forall key | key in rank :: RankedAt(rank, targets, f, key) && rank[key] < |rank|
  }

  /** None of the definitions left can be ranked. */
  predicate Stuck(rank: SA.Ranks, targets: set<DefKey>, f: Fields)
    requires Closed(targets, f)
  {
    forall key | key in targets && key !in rank :: !Rankable(rank, targets, f, key)
  }

  /** Definitions are ranked as long as there is one all of whose `$ref`s are; the others form cycles. */
  lemma {:induction false} RankOrCycle(targets: set<DefKey>, f: Fields, rank: SA.Ranks) returns (all: SA.Ranks)
    requires Closed(targets, f) && Ranking(rank, targets, f)
    ensures Ranking(all, targets, f) && Stuck(all, targets, f)
    decreases |targets - rank.Keys|
  {
    if Stuck(rank, targets, f) {
      all := rank;
    } else {
      var key :| key in targets && key !in rank && Rankable(rank, targets, f, key);
      var more := rank[key := |rank|];
      OneMoreKey(rank, key);
      OneMoreRank(targets, f, rank, more, key);
      FewerLeft(targets, rank, more, key);
      all := RankOrCycle(targets, f, more);
    }
  }

  /** `more` ranks one definition more, above all others. */
  predicate Extends(more: SA.Ranks, rank: SA.Ranks, key: DefKey) {
    && key !in rank && more.Keys == rank.Keys + {key} && more[key] == |rank| < |more|
    && forall q | q in rank :: q in more && more[q] == rank[q]
  }

  lemma OneMoreKey(rank: SA.Ranks, key: DefKey)
    requires key !in rank
    ensures Extends(rank[key := |rank|], rank, key)
  {
    var more := rank[key := |rank|];
    assert more.Keys == rank.Keys + {key};
    assert |more| == |more.Keys| && |rank| == |rank.Keys|;
  }

  lemma FewerLeft(targets: set<DefKey>, rank: SA.Ranks, more: SA.Ranks, key: DefKey)
    requires Extends(more, rank, key) && key in targets
    ensures |targets - more.Keys| < |targets - rank.Keys|
  {
    assert targets - rank.Keys == (targets - more.Keys) + {key};
  }

  /** The part of `Ranked` that concerns one definition. */
  predicate RankedAt(rank: SA.Ranks, targets: set<DefKey>, f: Fields, key: DefKey)
    requires key in rank
  {
    && key.0 in {Defs, Definitions} && Def(Obj(f), key).Some? && Def(Obj(f), key).value.Obj?
    && SA.Resolved(rank, targets, {}, SA.DefRefs(targets, key, Def(Obj(f), key).value.fields), rank[key])
  }

  lemma OneMoreRank(targets: set<DefKey>, f: Fields, rank: SA.Ranks, more: SA.Ranks, key: DefKey)
    requires Closed(targets, f) && Ranking(rank, targets, f) && Extends(more, rank, key)
    requires key in targets && Rankable(rank, targets, f, key)
    ensures Ranking(more, targets, f)
  {
    forall q | q in more ensures RankedAt(more, targets, f, q) && more[q] < |more| {
      if q == key { KeyRanked(targets, f, rank, more, key); } else { OtherRanked(targets, f, rank, more, key, q); }
    }
  }

  lemma KeyRanked(targets: set<DefKey>, f: Fields, rank: SA.Ranks, more: SA.Ranks, key: DefKey)
    requires Closed(targets, f) && Ranking(rank, targets, f) && Extends(more, rank, key)
    requires key in targets && Rankable(rank, targets, f, key)
    ensures RankedAt(more, targets, f, key)
  {
    ResolvedNow(rank, more, targets, SA.InlinedRefs(Def(Obj(f), key).value.fields), key);
  }

  lemma OtherRanked(targets: set<DefKey>, f: Fields, rank: SA.Ranks, more: SA.Ranks, key: DefKey, q: DefKey)
    requires Ranking(rank, targets, f) && Extends(more, rank, key) && q in rank
    ensures RankedAt(more, targets, f, q) && more[q] < |more|
  {
    assert RankedAt(rank, targets, f, q);
    ResolvedStays(rank, more, targets, SA.DefRefs(targets, q, Def(Obj(f), q).value.fields), key, rank[q]);
  }

  lemma ResolvedStays(
      rank: SA.Ranks, more: SA.Ranks, targets: set<DefKey>, refs: set<string>, key: DefKey, below: nat)
    requires SA.Resolved(rank, targets, {}, refs, below) && Extends(more, rank, key)
    ensures SA.Resolved(more, targets, {}, refs, below)
  {
  }

  lemma ResolvedNow(rank: SA.Ranks, more: SA.Ranks, targets: set<DefKey>, refs: set<string>, key: DefKey)
    requires rank.Keys <= targets && Extends(more, rank, key) && (forall q | q in rank :: rank[q] < |rank|)
    requires forall ref | ref in refs :: Cyclic(rank.Keys, ref)
    ensures SA.Resolved(more, targets, {}, refs, |rank|)
  {
  }

  /**
   The schemas for which the question is settled: all that can be inlined are the definitions `targets`, each of them
   neither a `$ref` nor a single `allOf`, without definitions of its own, and merging is possible in any order.
   */
  predicate Regular(targets: set<DefKey>, f: Fields) {
    && Closed(targets, f) && Domain(Listed(targets), Obj(f)) && Unique(Obj(f))
    && forall key | key in targets ::
         var d := Def(Obj(f), key).value; Tame(d) && !Has(d.fields, Ref) && !SingleAllOf(d.fields)
  }

  function Listed(targets: set<DefKey>): Table {
    Table(map key | key in targets :: [], targets)
  }

  /** Definitions that cannot be ranked lead back to one another. */
  lemma CycleLoops(targets: set<DefKey>, f: Fields, rank: SA.Ranks, key: DefKey)
    requires Regular(targets, f) && key in targets && key !in rank && !Rankable(rank, targets, f, key)
    ensures LoopDef(targets - rank.Keys, Def(Obj(f), key))
  {
    var d := Def(Obj(f), key).value.fields;
    var ref :| ref in SA.InlinedRefs(d) && !Cyclic(rank.Keys, ref);
    assert Cyclic(targets, ref);
    F.DefWithin(Listed(targets), f, key);
    RefsLoop(Listed(targets), targets - rank.Keys, d, ref);
  }

  lemma RefsLoop(t: Table, c: set<DefKey>, d: Fields, ref: string)
    requires Domain(t, Obj(d)) && Tame(Obj(d)) && Unique(Obj(d)) && !Has(d, Ref) && !SingleAllOf(d)
    requires ref in SA.InlinedRefs(d) && Cyclic(c, ref)
    ensures DeepHit(c, d)
  {
    DropGet(d, {Default}, AllOf);
    DropGet(d, {Default}, Ref);
    RefsHit(t, c, Obj(d), ref);
  }

  ghost predicate AcyclicOn(targets: set<DefKey>, f: Fields) {
    exists rank: SA.Ranks :: rank.Keys == targets && SA.Ranked(rank, targets, {}, f)
  }

  lemma RegularOrderFree(targets: set<DefKey>, f: Fields, rank: SA.Ranks)
    requires Regular(targets, f) && rank.Keys == targets && SA.Ranked(rank, targets, {}, f)
    ensures F.OrderFree(rank, targets, f)
  {
    assert F.Shell(rank, targets) == Listed(targets);
    RefsAcyclic(targets, f, rank);
    forall key | key in targets ensures F.RefFree(Def(Obj(f), key).value.fields) {
      PlainRefFree(Def(Obj(f), key).value.fields);
    }
  }

  lemma RefsAcyclic(targets: set<DefKey>, f: Fields, rank: SA.Ranks)
    requires Closed(targets, f) && rank.Keys == targets && SA.Ranked(rank, targets, {}, f)
    ensures SA.Acyclic(rank, targets, {}, f)
  {
    forall ref | ref in SA.Refs(Obj(f)) ensures Names2(ref).Some? && Names2(ref).value in rank {
      assert Cyclic(targets, ref);
    }
  }

  lemma PlainRefFree(d: Fields)
    requires !Has(d, Ref) && !SingleAllOf(d)
    ensures F.RefFree(d)
  {
    DropGet(d, {Default}, AllOf);
  }

  lemma RankedReturns(targets: set<DefKey>, f: Fields, rank: SA.Ranks) returns (depth: nat)
    requires Regular(targets, f) && rank.Keys == targets && SA.Ranked(rank, targets, {}, f)
    ensures forall limit | limit >= depth :: Normalize(Obj(f), limit).Ok?
  {
    RegularOrderFree(targets, f, rank);
    var t;
    t, depth := F.InPlaceEqualsPureWhenAcyclic(rank, targets, f);
  }

  /**
   The rewriter returns a schema, from some recursion limit on, exactly if the definitions it can inline are free of
   cycles; otherwise it returns one under no limit.
   */
  lemma ReturnsIffAcyclic(targets: set<DefKey>, f: Fields)
    requires Regular(targets, f)
    ensures (exists limit: nat :: Normalize(Obj(f), limit).Ok?) <==> AcyclicOn(targets, f)
  {
    if AcyclicOn(targets, f) {
      var rank: SA.Ranks :| rank.Keys == targets && SA.Ranked(rank, targets, {}, f);
      var depth := RankedReturns(targets, f, rank);
      assert Normalize(Obj(f), depth).Ok?;
    } else {
      forall limit: nat ensures Normalize(Obj(f), limit).Err? { CyclicNeverReturns(targets, f, limit); }
    }
  }

  lemma NothingLeft(a: set<DefKey>, b: set<DefKey>)
    requires b <= a
    ensures a - b == {} ==> b == a
  {
    assert forall k | k in a && k !in b :: k in a - b;
  }

  lemma RankingRanked(rank: SA.Ranks, targets: set<DefKey>, f: Fields)
    requires Ranking(rank, targets, f)
    ensures SA.Ranked(rank, targets, {}, f)
  {
    forall key | key in rank
      ensures && key.0 in {Defs, Definitions} && Def(Obj(f), key).Some? && Def(Obj(f), key).value.Obj?
              && SA.Resolved(rank, targets, {}, SA.DefRefs(targets, key, Def(Obj(f), key).value.fields), rank[key])
    {
      assert RankedAt(rank, targets, f, key);
    }
  }

  lemma CyclicNeverReturns(targets: set<DefKey>, f: Fields, limit: nat)
    requires Regular(targets, f) && !AcyclicOn(targets, f)
    ensures Normalize(Obj(f), limit).Err?
  {
    var rank := RankOrCycle(targets, f, map[]);
    var c := targets - rank.Keys;
    NothingLeft(targets, rank.Keys);
    RankingRanked(rank, targets, f);
    forall key | key in c ensures LoopDef(c, Def(Obj(f), key)) { CycleLoops(targets, f, rank, key); }
    CycleNeverFinished(c, f, limit);
  }
}
