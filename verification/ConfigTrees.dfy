/**
 Expansion over a whole configuration, and the report of missing variables:
 core/app/llmhubs/config_loader.py lines 61-68 and 160-174.
 */
module ConfigTrees {
  import opened EnvExpansion

  datatype Yaml =
    | Text(s: string)
    | Dict(fields: seq<Pair>)
    | List(items: seq<Yaml>)
    | Scalar(shown: string)

  datatype Pair = Pair(key: string, value: Yaml)

  /** What becomes of a string, and the names it adds to the missing ones. */
  type Expander = string -> (string, seq<string>)

  function ExpanderOf(env: Env): Expander {
    s => ExpandString(s, env)
  }

  // ---- expansion, threading the list of missing names --------------------------------------

  function Expand(v: Yaml, e: Expander, missing: seq<string>): (Yaml, seq<string>)
    decreases v, 1
  {
    match v
    case Text(s) => (Text(e(s).0), missing + e(s).1)
    case Dict(fields) => var r := ExpandPairs(fields, e, missing); (Dict(r.0), r.1)
    case List(items) => var r := ExpandItems(items, e, missing); (List(r.0), r.1)
    case Scalar(_) => (v, missing)
  }

  function ExpandPairs(fields: seq<Pair>, e: Expander, missing: seq<string>): (seq<Pair>, seq<string>)
    decreases fields, 0
  {
    if fields == [] then ([], missing)
    else
      var first := ExpandPair(fields[0], e, missing);
      var rest := ExpandPairs(fields[1..], e, first.1);
      ([first.0] + rest.0, rest.1)
  }

  function ExpandPair(p: Pair, e: Expander, missing: seq<string>): (Pair, seq<string>)
    decreases p, 0
  {
    var r := Expand(p.value, e, missing);
    (Pair(p.key, r.0), r.1)
  }

  function ExpandItems(items: seq<Yaml>, e: Expander, missing: seq<string>): (seq<Yaml>, seq<string>)
    decreases items, 0
  {
    if items == [] then ([], missing)
    else
      var first := Expand(items[0], e, missing);
      var rest := ExpandItems(items[1..], e, first.1);
      ([first.0] + rest.0, rest.1)
  }

  // ---- the strings of a tree, in document order --------------------------------------------

  function Strings(v: Yaml): seq<string>
    decreases v, 1
  {
    match v
    case Text(s) => [s]
    case Dict(fields) => PairStrings(fields)
    case List(items) => ItemStrings(items)
    case Scalar(_) => []
  }

  function PairStrings(fields: seq<Pair>): seq<string>
    decreases fields, 0
  {
    if fields == [] then [] else ValueStrings(fields[0]) + PairStrings(fields[1..])
  }

  function ValueStrings(p: Pair): seq<string>
    decreases p, 0
  {
    Strings(p.value)
  }

  function ItemStrings(items: seq<Yaml>): seq<string>
    decreases items, 0
  {
    if items == [] then [] else Strings(items[0]) + ItemStrings(items[1..])
  }

  /** The missing names, string by string. */
  function MissingOf(strings: seq<string>, e: Expander): seq<string> {
    if strings == [] then [] else e(strings[0]).1 + MissingOf(strings[1..], e)
  }

  lemma {:induction false} MissingAppend(a: seq<string>, b: seq<string>, e: Expander)
    ensures MissingOf(a + b, e) == MissingOf(a, e) + MissingOf(b, e)
  {
    if a == [] {
      assert a + b == b;
    } else {
      MissingAppend(a[1..], b, e);
      assert (a + b)[0] == a[0] && (a + b)[1..] == a[1..] + b;
      Associates(e(a[0]).1, MissingOf(a[1..], e), MissingOf(b, e));
    }
  }

  lemma Associates(a: seq<string>, b: seq<string>, c: seq<string>)
    ensures a + (b + c) == a + b + c
  {
  }

  /** Threading the list through two parts appends what each adds. */
  lemma Threaded(missing: seq<string>, a: seq<string>, b: seq<string>, e: Expander)
    ensures missing + MissingOf(a, e) + MissingOf(b, e) == missing + MissingOf(a + b, e)
  {
    MissingAppend(a, b, e);
    Associates(missing, MissingOf(a, e), MissingOf(b, e));
  }

  lemma MissingOfOne(s: string, e: Expander)
    ensures MissingOf([s], e) == e(s).1
  {
    assert [s][1..] == [] && MissingOf([], e) == [];
  }

  /** The tree with every string replaced by its expansion and nothing else changed. */
  predicate Expanded(v: Yaml, w: Yaml, e: Expander)
    decreases v, 1
  {
    match v
    case Text(s) => w == Text(e(s).0)
    case Dict(fields) => w.Dict? && PairsExpanded(fields, w.fields, e)
    case List(items) => w.List? && ItemsExpanded(items, w.items, e)
    case Scalar(_) => w == v
  }

  predicate PairsExpanded(f: seq<Pair>, g: seq<Pair>, e: Expander)
    decreases f, 0
  {
    |f| == |g| && forall i | 0 <= i < |f| :: PairExpanded(f[i], g[i], e)
  }

  predicate PairExpanded(p: Pair, q: Pair, e: Expander)
    decreases p, 0
  {
    q.key == p.key && Expanded(p.value, q.value, e)
  }

  predicate ItemsExpanded(xs: seq<Yaml>, ys: seq<Yaml>, e: Expander)
    decreases xs, 0
  {
    |xs| == |ys| && forall i | 0 <= i < |xs| :: Expanded(xs[i], ys[i], e)
  }

  /** Shape and keys are kept, every string is expanded, and the missing names are appended in order. */
  lemma {:induction false} ExpandTree(v: Yaml, e: Expander, missing: seq<string>)
    ensures Expanded(v, Expand(v, e, missing).0, e)
    ensures Expand(v, e, missing).1 == missing + MissingOf(Strings(v), e)
    decreases v, 1
  {
    match v
    case Text(s) => MissingOfOne(s, e);
    case Dict(fields) => ExpandFields(fields, e, missing);
    case List(items) => ExpandList(items, e, missing);
    case Scalar(_) =>
  }

  lemma {:induction false} ExpandFields(fields: seq<Pair>, e: Expander, missing: seq<string>)
    ensures PairsExpanded(fields, ExpandPairs(fields, e, missing).0, e)
    ensures ExpandPairs(fields, e, missing).1 == missing + MissingOf(PairStrings(fields), e)
    decreases fields, 0
  {
    if fields != [] {
      ExpandField(fields[0], e, missing);
      var first := ExpandPair(fields[0], e, missing);
      ExpandFields(fields[1..], e, first.1);
      Threaded(missing, ValueStrings(fields[0]), PairStrings(fields[1..]), e);
      ConsPairs(fields, first.0, ExpandPairs(fields[1..], e, first.1).0, e);
    }
  }

  lemma {:induction false} ExpandField(p: Pair, e: Expander, missing: seq<string>)
    ensures PairExpanded(p, ExpandPair(p, e, missing).0, e)
    ensures ExpandPair(p, e, missing).1 == missing + MissingOf(ValueStrings(p), e)
    decreases p, 0
  {
    ExpandTree(p.value, e, missing);
  }

  lemma {:induction false} ExpandList(items: seq<Yaml>, e: Expander, missing: seq<string>)
    ensures ItemsExpanded(items, ExpandItems(items, e, missing).0, e)
    ensures ExpandItems(items, e, missing).1 == missing + MissingOf(ItemStrings(items), e)
    decreases items, 0
  {
    if items != [] {
      ExpandTree(items[0], e, missing);
      var first := Expand(items[0], e, missing);
      ExpandList(items[1..], e, first.1);
      Threaded(missing, Strings(items[0]), ItemStrings(items[1..]), e);
      ConsItems(items, first.0, ExpandItems(items[1..], e, first.1).0, e);
    }
  }

  lemma ConsPairs(fields: seq<Pair>, q: Pair, qs: seq<Pair>, e: Expander)
    requires fields != [] && PairExpanded(fields[0], q, e) && PairsExpanded(fields[1..], qs, e)
    ensures PairsExpanded(fields, [q] + qs, e)
  {
    forall i | 0 <= i < |fields| ensures PairExpanded(fields[i], ([q] + qs)[i], e) {
      if i > 0 { assert PairExpanded(fields[1..][i - 1], qs[i - 1], e); }
    }
  }

  lemma ConsItems(items: seq<Yaml>, y: Yaml, ys: seq<Yaml>, e: Expander)
    requires items != [] && Expanded(items[0], y, e) && ItemsExpanded(items[1..], ys, e)
    ensures ItemsExpanded(items, [y] + ys, e)
  {
    forall i | 0 <= i < |items| ensures Expanded(items[i], ([y] + ys)[i], e) {
      if i > 0 { assert Expanded(items[1..][i - 1], ys[i - 1], e); }
    }
  }

  // ---- the report --------------------------------------------------------------------------

  /** Where a name occurs first. */
  function FirstAt(xs: seq<string>, x: string): (i: nat)
    requires x in xs
    ensures i < |xs| && xs[i] == x && x !in xs[..i]
  {
    if xs[0] == x then 0
    else
      assert xs == [xs[0]] + xs[1..];
      var i := FirstAt(xs[1..], x);
      assert xs[..i + 1] == [xs[0]] + xs[1..][..i];
      i + 1
  }

  /** Each name once, in the order of first occurrence. */
  ghost predicate IsReport(xs: seq<string>, r: seq<string>) {
    && (forall x :: x in r <==> x in xs)
    && forall i, j | 0 <= i < j < |r| :: r[i] in xs && r[j] in xs && FirstAt(xs, r[i]) < FirstAt(xs, r[j])
  }

  /** The deduplication in `_read_yaml`. */
  method Report(missing: seq<string>) returns (unique: seq<string>)
    ensures IsReport(missing, unique)
  {
    unique := [];
    var seen: set<string> := {};
    var i := 0;
    while i < |missing|
      invariant 0 <= i <= |missing|
      invariant forall x :: x in seen <==> x in missing[..i]
      invariant forall x :: x in unique <==> x in missing[..i]
      invariant forall a, b | 0 <= a < b < |unique| ::
                  unique[a] in missing && unique[b] in missing &&
                  FirstAt(missing, unique[a]) < FirstAt(missing, unique[b])
      invariant forall a | 0 <= a < |unique| :: unique[a] in missing && FirstAt(missing, unique[a]) < i
    {
      var v := missing[i];
      assert missing[..i + 1] == missing[..i] + [v];
      if v !in seen {
        NewName(missing, i);
        unique := unique + [v];
        seen := seen + {v};
      }
      i := i + 1;
    }
    assert missing[..|missing|] == missing;
  }

  lemma NewName(xs: seq<string>, i: nat)
    requires i < |xs| && xs[i] !in xs[..i]
    ensures FirstAt(xs, xs[i]) == i
  {
    forall n | i < n <= |xs| ensures xs[i] in xs[..n] { assert xs[..n][i] == xs[i]; }
    var f := FirstAt(xs, xs[i]);
    assert xs[i] !in xs[..f];
  }

  // ---- what the report says of the references in the tree ----------------------------------

  /** The missing references of a list of strings, the first of which is the `a`th. */
  function SitesFrom(strings: seq<string>, env: Env, a: nat): seq<Site> {
    if strings == [] then [] else SitesIn(strings[0], env, 0, a) + SitesFrom(strings[1..], env, a + 1)
  }

  lemma {:induction false} SitesFromNames(strings: seq<string>, env: Env, a: nat)
    ensures NamesOf(SitesFrom(strings, env, a)) == MissingOf(strings, ExpanderOf(env))
  {
    if strings != [] {
      StringNames(strings[0], env, a);
      SitesFromNames(strings[1..], env, a + 1);
      NamesAppend(SitesIn(strings[0], env, 0, a), SitesFrom(strings[1..], env, a + 1));
    }
  }

  lemma StringNames(s: string, env: Env, a: nat)
    ensures NamesOf(SitesIn(s, env, 0, a)) == ExpanderOf(env)(s).1
  {
    SitesNames(s, env, 0, a);
  }

  /** A missing reference at which the scan of its string stands. */
  predicate IsSite(strings: seq<string>, env: Env, x: Site) {
    && x.at < |strings|
    && x.pos in Stops(strings[x.at], 0)
    && MissingAt(strings[x.at], env, x.pos, x.name)
  }

  lemma {:induction false} SitesFromIff(strings: seq<string>, env: Env, a: nat, x: Site)
    ensures x in SitesFrom(strings, env, a) <==> x.at >= a && IsSite(strings, env, x.(at := x.at - a))
  {
    if strings != [] {
      FirstString(strings, env, a, x);
      SitesFromIff(strings[1..], env, a + 1, x);
      if x.at > a { LaterString(strings, env, x.(at := x.at - a)); }
    }
  }

  lemma FirstString(strings: seq<string>, env: Env, a: nat, x: Site)
    requires strings != []
    ensures x in SitesIn(strings[0], env, 0, a) <==> x.at == a && IsSite(strings, env, x.(at := 0))
  {
    SitesIff(strings[0], env, 0, a, x);
  }

  lemma LaterString(strings: seq<string>, env: Env, x: Site)
    requires strings != [] && x.at > 0
    ensures IsSite(strings, env, x) <==> IsSite(strings[1..], env, x.(at := x.at - 1))
  {
    if x.at < |strings| { assert strings[1..][x.at - 1] == strings[x.at]; }
  }

  lemma {:induction false} SitesFromOrdered(strings: seq<string>, env: Env, a: nat)
    ensures forall k, l | 0 <= k < l < |SitesFrom(strings, env, a)| ::
              Before(SitesFrom(strings, env, a)[k], SitesFrom(strings, env, a)[l])
  {
    if strings != [] {
      var x, y := SitesIn(strings[0], env, 0, a), SitesFrom(strings[1..], env, a + 1);
      SitesOrdered(strings[0], env, 0, a);
      SitesFromOrdered(strings[1..], env, a + 1);
      forall k | 0 <= k < |x| ensures x[k].at == a { SitesIff(strings[0], env, 0, a, x[k]); }
      forall k | 0 <= k < |y| ensures y[k].at > a { SitesFromIff(strings[1..], env, a + 1, y[k]); }
    }
  }

  /** `x` is a missing reference, and no missing reference to the same name comes before it. */
  ghost predicate FirstSite(strings: seq<string>, env: Env, x: Site) {
    IsSite(strings, env, x) && forall y: Site | IsSite(strings, env, y) && y.name == x.name :: x == y || Before(x, y)
  }

  /** The first missing reference to one name comes before that to another. */
  ghost predicate FoundBefore(strings: seq<string>, env: Env, a: string, b: string) {
    exists x: Site, y: Site ::
      x.name == a && FirstSite(strings, env, x) && y.name == b && FirstSite(strings, env, y) && Before(x, y)
  }

  /** The place at which a missing name is first found is its first missing reference. */
  lemma FirstFound(strings: seq<string>, env: Env, name: string)
    requires name in MissingOf(strings, ExpanderOf(env))
    ensures |SitesFrom(strings, env, 0)| == |MissingOf(strings, ExpanderOf(env))|
    ensures var x := SitesFrom(strings, env, 0)[FirstAt(MissingOf(strings, ExpanderOf(env)), name)];
            x.name == name && FirstSite(strings, env, x)
  {
    var sites, names := SitesFrom(strings, env, 0), MissingOf(strings, ExpanderOf(env));
    SitesFromNames(strings, env, 0);
    var i := FirstAt(names, name);
    assert NamesOf(sites)[i] == sites[i].name;
    SitesFromIff(strings, env, 0, sites[i]);
    SitesFromOrdered(strings, env, 0);
    forall y: Site | IsSite(strings, env, y) && y.name == name ensures sites[i] == y || Before(sites[i], y) {
      SitesFromIff(strings, env, 0, y);
      Earliest(sites, name, y);
    }
  }

  lemma Earliest(sites: seq<Site>, name: string, y: Site)
    requires name in NamesOf(sites) && y in sites && y.name == name
    requires forall k, l | 0 <= k < l < |sites| :: Before(sites[k], sites[l])
    ensures var i := FirstAt(NamesOf(sites), name); sites[i] == y || Before(sites[i], y)
  {
    var i := FirstAt(NamesOf(sites), name);
    var j :| 0 <= j < |sites| && sites[j] == y;
    assert NamesOf(sites)[j] == name;
    assert j >= i;
  }

  /**
   A name is reported exactly if some string of the tree has a reference to it that is not escaped and has no
   default, while the variable is unset or empty; names come in the order of their first such reference.
   */
  lemma ReportNamesMissing(v: Yaml, env: Env, r: seq<string>)
    requires IsReport(MissingOf(Strings(v), ExpanderOf(env)), r)
    ensures forall name :: name in r <==> exists x: Site :: x.name == name && IsSite(Strings(v), env, x)
    ensures forall i, j | 0 <= i < j < |r| :: FoundBefore(Strings(v), env, r[i], r[j])
  {
    var strings := Strings(v);
    var sites, names := SitesFrom(strings, env, 0), MissingOf(strings, ExpanderOf(env));
    SitesFromNames(strings, env, 0);
    forall name ensures name in r <==> exists x: Site :: x.name == name && IsSite(strings, env, x) {
      ReportsExactly(strings, env, name);
    }
    SitesFromOrdered(strings, env, 0);
    forall i, j | 0 <= i < j < |r| ensures FoundBefore(strings, env, r[i], r[j]) {
      FirstFound(strings, env, r[i]);
      FirstFound(strings, env, r[j]);
      assert Before(sites[FirstAt(names, r[i])], sites[FirstAt(names, r[j])]);
    }
  }

  lemma ReportsExactly(strings: seq<string>, env: Env, name: string)
    ensures name in MissingOf(strings, ExpanderOf(env)) <==> exists x: Site :: x.name == name && IsSite(strings, env, x)
  {
    var sites := SitesFrom(strings, env, 0);
    SitesFromNames(strings, env, 0);
    if name in MissingOf(strings, ExpanderOf(env)) { FirstFound(strings, env, name); }
    if x: Site :| x.name == name && IsSite(strings, env, x) {
      SitesFromIff(strings, env, 0, x);
      var j :| 0 <= j < |sites| && sites[j] == x;
      assert NamesOf(sites)[j] == name;
    }
  }

  datatype Loaded = Config(tree: Yaml) | MissingVariables(names: seq<string>)

  /**
   `_read_yaml` on parsed content: the expanded tree, or the names of the variables it lacks, each once and
   in the order of their first occurrence.
   */
  method ReadConfig(content: Yaml, env: Env) returns (r: Loaded)
    ensures r.Config? <==> MissingOf(Strings(content), ExpanderOf(env)) == []
    ensures r.Config? ==> Expanded(content, r.tree, ExpanderOf(env))
    ensures r.MissingVariables? ==> r.names != [] && IsReport(MissingOf(Strings(content), ExpanderOf(env)), r.names)
  {
    r := ReadWith(content, ExpanderOf(env));
  }

  method ReadWith(content: Yaml, e: Expander) returns (r: Loaded)
    ensures r.Config? <==> MissingOf(Strings(content), e) == []
    ensures r.Config? ==> Expanded(content, r.tree, e)
    ensures r.MissingVariables? ==> r.names != [] && IsReport(MissingOf(Strings(content), e), r.names)
  {
    var x := Expand(content, e, []);
    ExpandTree(content, e, []);
    assert x.1 == MissingOf(Strings(content), e);
    if x.1 != [] {
      var names := Report(x.1);
      assert x.1[0] in names;
      r := MissingVariables(names);
    } else {
      r := Config(x.0);
    }
  }
}
