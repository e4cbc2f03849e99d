/**
 `_validate_strict_json_schema` and `to_strict_json_schema` of core/app/llmhubs/response_format.py.
 */
module SchemaValidator {
  import opened Options
  import opened Json
  import opened SchemaNormalizer
  import opened SchemaNormalForm
  import opened Decimals

  const UNSUPPORTED: set<Name> :=
    {AllOf, Text("not"), Text("dependentRequired"), Text("dependentSchemas"), Text("if"), Text("then"), Text("else")}

  function Unsupported(f: Fields): set<string> {
    set k | k in UNSUPPORTED && Has(f, k) :: Spell(k)
  }

  const REFUSED: set<string> := {"allOf", "not", "dependentRequired", "dependentSchemas", "if", "then", "else"}

  lemma RefusedIsUnsupported(k: string)
    requires k in REFUSED
    ensures Parse(k) in UNSUPPORTED
  {
    if k == "allOf" { ParsedAllOf(); } else { ParsedText(k); }
  }

  lemma UnsupportedIsRefused(q: Name)
    requires q in UNSUPPORTED
    ensures Spell(q) in REFUSED && Parse(Spell(q)) == q
  {
    if q == AllOf { ParsedAllOf(); } else { ParsedText(q.text); }
  }

  /** Seven keywords are refused, these. */
  lemma KeywordsRefused(f: Fields, k: string)
    ensures k in Unsupported(f) <==>
            k in {"allOf", "not", "dependentRequired", "dependentSchemas", "if", "then", "else"} && Has(f, Parse(k))
  {
    if k in REFUSED { RefusedIsUnsupported(k); }
    if k in Unsupported(f) {
      var q :| q in UNSUPPORTED && Has(f, q) && k == Spell(q);
      UnsupportedIsRefused(q);
    }
  }

  lemma ParsedAllOf()
    ensures Parse("allOf") == AllOf
  {
  }

  lemma ParsedText(k: string)
    requires k in {"not", "dependentRequired", "dependentSchemas", "if", "then", "else"}
    ensures Parse(k) == Text(k)
  {
  }

  /** The subschemas of a dictionary the validator looks at, in its order, with their labels. */
  function Parts(f: Fields): seq<Part> {
    NamedParts(f, Properties) + NamedParts(f, Defs) + NamedParts(f, Definitions)
    + ItemsPart(f) + ListedParts(f, AnyOf) + ListedParts(f, OneOf)
  }

  type Part = (seq<string>, Json)

  function NamedParts(f: Fields, k: Name): seq<Part> {
    if Has(f, k) && Value(f, k).Obj? then NamedPartsOf(Value(f, k).fields, k) else []
  }

  function NamedPartsOf(c: Fields, k: Name): seq<Part> {
    seq(|c|, j requires 0 <= j < |c| => ([Spell(k), Spell(c[j].key)], c[j].value))
  }

  function ItemsPart(f: Fields): seq<Part> {
    if Has(f, Items) && Value(f, Items).Obj? then [([Spell(Items)], Value(f, Items))] else []
  }

  function ListedParts(f: Fields, k: Name): seq<Part> {
    if Has(f, k) && Value(f, k).Arr? then ListedPartsOf(Value(f, k).items, k) else []
  }

  function ListedPartsOf(c: seq<Json>, k: Name): seq<Part> {
    seq(|c|, j requires 0 <= j < |c| => ([Spell(k), Decimal(j)], c[j]))
  }

  /** Every part is smaller than the dictionary and its label is not empty. */
  lemma PartSmaller(f: Fields, j: nat)
    requires j < |Parts(f)|
    ensures Parts(f)[j].1 < Obj(f) && Parts(f)[j].0 != []
  {
    PartOf(f, Parts(f)[j]);
    var k :| PartUnder(f, k, Parts(f)[j]);
    var v := Value(f, k);
    assert v == f[Index(f, k)].value && v < f[Index(f, k)] && f[Index(f, k)] < Obj(f);
  }

  predicate PartUnder(f: Fields, k: Name, x: Part) {
    && Has(f, k) && x.0 != []
    && (x.1 == Value(f, k) || exists j | 0 <= j < Size(Value(f, k)) :: x.1 == Child(Value(f, k), j))
  }

  lemma PartOf(f: Fields, x: Part)
    requires x in Parts(f)
    ensures exists k :: PartUnder(f, k, x)
  {
    var a, b, c := NamedParts(f, Properties), NamedParts(f, Defs), NamedParts(f, Definitions);
    if x in a { NamedPart(f, Properties, x); }
    else if x in b { NamedPart(f, Defs, x); }
    else if x in c { NamedPart(f, Definitions, x); }
    else if x in ItemsPart(f) { assert PartUnder(f, Items, x); }
    else if x in ListedParts(f, AnyOf) { ListedPart(f, AnyOf, x); }
    else { ListedPart(f, OneOf, x); }
  }

  lemma NamedPart(f: Fields, k: Name, x: Part)
    requires x in NamedParts(f, k)
    ensures PartUnder(f, k, x)
  {
    var j :| 0 <= j < |NamedParts(f, k)| && NamedParts(f, k)[j] == x;
    assert x.1 == Child(Value(f, k), j);
  }

  lemma ListedPart(f: Fields, k: Name, x: Part)
    requires x in ListedParts(f, k)
    ensures PartUnder(f, k, x)
  {
    var j :| 0 <= j < |ListedParts(f, k)| && ListedParts(f, k)[j] == x;
    assert x.1 == Child(Value(f, k), j);
  }

  predicate NamedIn(c: Fields, k: Name, at: seq<string>, v: Json) {
    exists j | 0 <= j < |c| :: c[j].value == v && at == [Spell(k), Spell(c[j].key)]
  }

  predicate ListedIn(c: seq<Json>, k: Name, at: seq<string>, v: Json) {
    exists j | 0 <= j < |c| :: c[j] == v && at == [Spell(k), Decimal(j)]
  }

  /** Whether `v` is a subschema under the keyword `k`, labelled `at`. */
  predicate PartOfKey(f: Fields, k: Name, at: seq<string>, v: Json) {
    Has(f, k) &&
    match k
    case Properties | Defs | Definitions => Value(f, k).Obj? && NamedIn(Value(f, k).fields, k, at, v)
    case Items => v == Value(f, k) && v.Obj? && at == [Spell(Items)]
    case AnyOf | OneOf => Value(f, k).Arr? && ListedIn(Value(f, k).items, k, at, v)
    case _ => false
  }

  /** The parts are every property, definition, `items` and alternative, and nothing else. */
  lemma PartsExactly(f: Fields, at: seq<string>, v: Json)
    ensures (at, v) in Parts(f) <==> exists k :: PartOfKey(f, k, at, v)
  {
    var x := (at, v);
    KeyExactly(f, Properties, at, v);
    KeyExactly(f, Defs, at, v);
    KeyExactly(f, Definitions, at, v);
    KeyExactly(f, AnyOf, at, v);
    KeyExactly(f, OneOf, at, v);
    assert x in ItemsPart(f) <==> PartOfKey(f, Items, at, v);
    assert x in Parts(f) <==>
      x in NamedParts(f, Properties) || x in NamedParts(f, Defs) || x in NamedParts(f, Definitions)
                              || x in ItemsPart(f) || x in ListedParts(f, AnyOf) || x in ListedParts(f, OneOf);
  }

  lemma KeyExactly(f: Fields, k: Name, at: seq<string>, v: Json)
    ensures k in {Properties, Defs, Definitions} ==> ((at, v) in NamedParts(f, k) <==> PartOfKey(f, k, at, v))
    ensures k in {AnyOf, OneOf} ==> ((at, v) in ListedParts(f, k) <==> PartOfKey(f, k, at, v))
  {
    if Has(f, k) && Value(f, k).Obj? { NamedExactly(Value(f, k).fields, k, at, v); }
    if Has(f, k) && Value(f, k).Arr? { ListedExactly(Value(f, k).items, k, at, v); }
  }

  lemma NamedExactly(c: Fields, k: Name, at: seq<string>, v: Json)
    ensures (at, v) in NamedPartsOf(c, k) <==> NamedIn(c, k, at, v)
  {
    if NamedIn(c, k, at, v) {
      var j :| 0 <= j < |c| && c[j].value == v && at == [Spell(k), Spell(c[j].key)];
      assert NamedPartsOf(c, k)[j] == (at, v);
    }
    if (at, v) in NamedPartsOf(c, k) {
      var j :| 0 <= j < |c| && NamedPartsOf(c, k)[j] == (at, v);
      assert c[j].value == v;
    }
  }

  lemma ListedExactly(c: seq<Json>, k: Name, at: seq<string>, v: Json)
    ensures (at, v) in ListedPartsOf(c, k) <==> ListedIn(c, k, at, v)
  {
    if ListedIn(c, k, at, v) {
      var j :| 0 <= j < |c| && c[j] == v && at == [Spell(k), Decimal(j)];
      assert ListedPartsOf(c, k)[j] == (at, v);
    }
    if (at, v) in ListedPartsOf(c, k) {
      var j :| 0 <= j < |c| && ListedPartsOf(c, k)[j] == (at, v);
      assert c[j] == v;
    }
  }

  // ---- the validator -----------------------------------------------------------------------

  /** The error raised for the dictionary itself. */
  function TopError(f: Fields, path: seq<string>): Option<Error> {
    if path == [] && Has(f, AnyOf) then Some(RootAnyOf)
    else if path == [] && Get(f, Type) != Some(Str("object")) then Some(RootNotObject)
    else if Unsupported(f) != {} then Some(UnsupportedKeywords(path, Unsupported(f)))
    else None
  }

  /** The error `_validate_strict_json_schema` raises, if any. */
  function Validate(n: Json, path: seq<string>): Option<Error>
    decreases n, 1
  {
    if !n.Obj? then None
    else
      var e := TopError(n.fields, path);
      if e.Some? then e else ValidateParts(n, n.fields, path, 0)
  }

  function ValidateParts(n: Json, f: Fields, path: seq<string>, j: nat): Option<Error>
    requires n == Obj(f) && j <= |Parts(f)|
    decreases n, 0, |Parts(f)| - j
  {
    if j == |Parts(f)| then None
    else
      PartSmaller(f, j);
      var e := Validate(Parts(f)[j].1, path + Parts(f)[j].0);
      if e.Some? then e else ValidateParts(n, f, path, j + 1)
  }

  /** The place reached by choosing one part after another. */
  function Reached(n: Json, steps: seq<nat>): Option<Json> {
    if steps == [] then Some(n)
    else if n.Obj? && steps[0] < |Parts(n.fields)| then Reached(Parts(n.fields)[steps[0]].1, steps[1..])
    else None
  }

  function Labels(n: Json, steps: seq<nat>): seq<string>
    requires Reached(n, steps).Some?
  {
    if steps == [] then [] else Parts(n.fields)[steps[0]].0 + Labels(Parts(n.fields)[steps[0]].1, steps[1..])
  }

  predicate CleanAt(n: Json, steps: seq<nat>) {
    var m := Reached(n, steps);
    m.Some? && m.value.Obj? ==> Unsupported(m.value.fields) == {}
  }

  /** No place the validator can reach uses an unsupported keyword. */
  ghost predicate Clean(n: Json) {
    forall steps :: CleanAt(n, steps)
  }

  predicate RootFits(n: Json) {
    n.Obj? ==> !Has(n.fields, AnyOf) && Get(n.fields, Type) == Some(Str("object"))
  }

  lemma CleanPart(n: Json, j: nat)
    requires Clean(n) && n.Obj? && j < |Parts(n.fields)|
    ensures Clean(Parts(n.fields)[j].1)
  {
    var c := Parts(n.fields)[j].1;
    forall steps ensures CleanAt(c, steps) {
      assert ([j] + steps)[1..] == steps;
      assert CleanAt(n, [j] + steps);
    }
  }

  lemma CleanFromParts(n: Json)
    requires n.Obj? ==>
               Unsupported(n.fields) == {} && forall j | 0 <= j < |Parts(n.fields)| :: Clean(Parts(n.fields)[j].1)
    ensures Clean(n)
  {
    forall steps ensures CleanAt(n, steps) {
      if steps != [] && n.Obj? && steps[0] < |Parts(n.fields)| {
        assert Clean(Parts(n.fields)[steps[0]].1);
        assert CleanAt(Parts(n.fields)[steps[0]].1, steps[1..]);
      }
    }
  }

  /** The validator accepts exactly the clean documents whose root is an object schema without `anyOf`. */
  lemma {:induction false} ValidateIff(n: Json, path: seq<string>)
    ensures Validate(n, path) == None <==> Clean(n) && (path == [] ==> RootFits(n))
    decreases n, 1
  {
    if n.Obj? {
      var f := n.fields;
      if TopError(f, path).None? {
        PartsIff(n, f, path, 0);
        if Clean(n) {
          forall j | 0 <= j < |Parts(f)| ensures Clean(Parts(f)[j].1) { CleanPart(n, j); }
        } else if Validate(n, path).None? {
          CleanFromParts(n);
        }
      } else if Clean(n) {
        assert CleanAt(n, []);
      }
    } else {
      CleanFromParts(n);
    }
  }

  lemma {:induction false} PartsIff(n: Json, f: Fields, path: seq<string>, j: nat)
    requires n == Obj(f) && j <= |Parts(f)|
    ensures ValidateParts(n, f, path, j) == None <==> CleanFrom(f, j)
    decreases n, 0, |Parts(f)| - j
  {
    if j < |Parts(f)| {
      PartSmaller(f, j);
      ValidateIff(Parts(f)[j].1, path + Parts(f)[j].0);
      PartsIff(n, f, path, j + 1);
      PartsStep(n, f, path, j);
      CleanStep(f, j);
    }
  }

  ghost predicate CleanFrom(f: Fields, j: nat) {
    forall i | j <= i < |Parts(f)| :: Clean(Parts(f)[i].1)
  }

  lemma CleanStep(f: Fields, j: nat)
    requires j < |Parts(f)|
    ensures CleanFrom(f, j) <==> Clean(Parts(f)[j].1) && CleanFrom(f, j + 1)
  {
  }

  lemma PartsStep(n: Json, f: Fields, path: seq<string>, j: nat)
    requires n == Obj(f) && j < |Parts(f)|
    ensures var e := Validate(Parts(f)[j].1, path + Parts(f)[j].0);
            ValidateParts(n, f, path, j) == if e.Some? then e else ValidateParts(n, f, path, j + 1)
  {
  }

  /** Whether the validator comes to the place `a` before the place `b`: to a place before those below it. */
  predicate Earlier(a: seq<nat>, b: seq<nat>) {
    b != [] && (a == [] || a[0] < b[0] || (a[0] == b[0] && Earlier(a[1..], b[1..])))
  }

  /** A reported place exists, has exactly the reported keywords, and no place before it has any. */
  ghost predicate Witnessed(n: Json, path: seq<string>, e: Error) {
    e.UnsupportedKeywords? ==>
      exists steps :: Blames(n, path, steps, e)
  }

  ghost predicate Blames(n: Json, path: seq<string>, steps: seq<nat>, e: Error)
    requires e.UnsupportedKeywords?
  {
    var m := Reached(n, steps);
    && m.Some? && m.value.Obj? && Unsupported(m.value.fields) == e.keywords != {}
    && e.at == path + Labels(n, steps)
    && forall q | Earlier(q, steps) :: CleanAt(n, q)
  }

  lemma {:induction false} ValidateBlames(n: Json, path: seq<string>)
    requires Validate(n, path).Some?
    ensures Witnessed(n, path, Validate(n, path).value)
    decreases n, 1
  {
    var f := n.fields;
    if TopError(f, path).Some? {
      var e := TopError(f, path).value;
      if e.UnsupportedKeywords? {
        assert path + [] == path;
        assert Blames(n, path, [], e);
      }
    } else {
      assert CleanBefore(f, 0);
      PartsBlame(n, f, path, 0);
    }
  }

  /** Nothing is wrong with the dictionary itself and its first `j` parts. */
  ghost predicate CleanBefore(f: Fields, j: nat) {
    Unsupported(f) == {} && forall i | 0 <= i < j && i < |Parts(f)| :: Clean(Parts(f)[i].1)
  }

  lemma CleanAbove(n: Json, f: Fields, j: nat, steps: seq<nat>, q: seq<nat>)
    requires n == Obj(f) && j < |Parts(f)| && CleanBefore(f, j) && Earlier(q, [j] + steps)
    requires forall r | Earlier(r, steps) :: CleanAt(Parts(f)[j].1, r)
    ensures CleanAt(n, q)
  {
    if q != [] && q[0] < |Parts(f)| {
      var c := Parts(f)[q[0]].1;
      assert ([j] + steps)[1..] == steps;
      assert q == [q[0]] + q[1..];
      assert CleanAt(c, q[1..]);
    }
  }

  lemma BlamesAbove(n: Json, f: Fields, path: seq<string>, j: nat, steps: seq<nat>, e: Error)
    requires n == Obj(f) && j < |Parts(f)| && e.UnsupportedKeywords?
    requires CleanBefore(f, j) && var x := Parts(f)[j]; Blames(x.1, path + x.0, steps, e)
    ensures Blames(n, path, [j] + steps, e)
  {
    StepInto(n, f, j, steps);
    forall q | Earlier(q, [j] + steps) ensures CleanAt(n, q) { CleanAbove(n, f, j, steps, q); }
    BlamesShift(n, [j] + steps, Parts(f)[j].1, Parts(f)[j].0, path, steps, e);
  }

  lemma BlamesShift(n: Json, q: seq<nat>, c: Json, at: seq<string>, path: seq<string>, steps: seq<nat>, e: Error)
    requires e.UnsupportedKeywords? && Blames(c, path + at, steps, e)
    requires Reached(n, q) == Reached(c, steps) && Labels(n, q) == at + Labels(c, steps)
    requires forall r | Earlier(r, q) :: CleanAt(n, r)
    ensures Blames(n, path, q, e)
  {
    Joined(path, at, Labels(c, steps));
  }

  lemma Joined(a: seq<string>, b: seq<string>, c: seq<string>)
    ensures a + (b + c) == a + b + c
  {
  }

  lemma StepInto(n: Json, f: Fields, j: nat, steps: seq<nat>)
    requires n == Obj(f) && j < |Parts(f)| && Reached(Parts(f)[j].1, steps).Some?
    ensures Reached(n, [j] + steps) == Reached(Parts(f)[j].1, steps)
    ensures Labels(n, [j] + steps) == Parts(f)[j].0 + Labels(Parts(f)[j].1, steps)
  {
    var q := [j] + steps;
    assert q[0] == j && q[1..] == steps;
  }

  lemma {:induction false} PartsBlame(n: Json, f: Fields, path: seq<string>, j: nat)
    requires n == Obj(f) && j <= |Parts(f)| && ValidateParts(n, f, path, j).Some? && CleanBefore(f, j)
    ensures Witnessed(n, path, ValidateParts(n, f, path, j).value)
    decreases n, 0, |Parts(f)| - j
  {
    PartSmaller(f, j);
    var x := Parts(f)[j];
    var e := Validate(x.1, path + x.0);
    PartsStep(n, f, path, j);
    if e.Some? {
      ValidateBlames(x.1, path + x.0);
      PartBlames(n, f, path, j, e.value);
    } else {
      ValidateIff(x.1, path + x.0);
      PartsBlame(n, f, path, j + 1);
    }
  }

  lemma PartBlames(n: Json, f: Fields, path: seq<string>, j: nat, e: Error)
    requires n == Obj(f) && j < |Parts(f)| && Witnessed(Parts(f)[j].1, path + Parts(f)[j].0, e) && CleanBefore(f, j)
    ensures Witnessed(n, path, e)
  {
    if e.UnsupportedKeywords? {
      var c, at := Parts(f)[j].1, path + Parts(f)[j].0;
      var steps := BlamedSteps(c, at, e);
      BlamesAbove(n, f, path, j, steps, e);
    }
  }

  lemma BlamedSteps(n: Json, path: seq<string>, e: Error) returns (steps: seq<nat>)
    requires e.UnsupportedKeywords? && Witnessed(n, path, e)
    ensures Blames(n, path, steps, e)
  {
    steps :| Blames(n, path, steps, e);
  }

  /** Below the root only unsupported keywords are reported. */
  lemma {:induction false} BelowRoot(n: Json, path: seq<string>)
    requires path != [] && Validate(n, path).Some?
    ensures Validate(n, path).value.UnsupportedKeywords?
    decreases n, 1
  {
    if TopError(n.fields, path).None? { PartsBelowRoot(n, n.fields, path, 0); }
  }

  lemma {:induction false} PartsBelowRoot(n: Json, f: Fields, path: seq<string>, j: nat)
    requires n == Obj(f) && j <= |Parts(f)| && ValidateParts(n, f, path, j).Some?
    ensures ValidateParts(n, f, path, j).value.UnsupportedKeywords?
    decreases n, 0, |Parts(f)| - j
  {
    PartSmaller(f, j);
    PartsStep(n, f, path, j);
    var x := Parts(f)[j];
    if Validate(x.1, path + x.0).Some? { BelowRoot(x.1, path + x.0); } else { PartsBelowRoot(n, f, path, j + 1); }
  }

  /** At the root `anyOf` comes first, then the type, and the rest only when both are as they should be. */
  lemma RootErrors(f: Fields)
    ensures Validate(Obj(f), []) == Some(RootAnyOf) <==> Has(f, Parse("anyOf"))
    ensures Validate(Obj(f), []) == Some(RootNotObject) <==>
            !Has(f, Parse("anyOf")) && !(Has(f, Parse("type")) && Value(f, Parse("type")) == Str("object"))
  {
    if TopError(f, []).None? && ValidateParts(Obj(f), f, [], 0).Some? { PartsBelowRoot(Obj(f), f, [], 0); }
  }

  // ---- the order of the parts --------------------------------------------------------------

  /** The keywords the validator looks under, in its order. */
  const ORDER: seq<string> := ["properties", "$defs", "definitions", "items", "anyOf", "oneOf"]

  /** The parts under the `x`th keyword. */
  function Group(f: Fields, x: nat): seq<Part> {
    match x
    case 0 => NamedParts(f, Properties)
    case 1 => NamedParts(f, Defs)
    case 2 => NamedParts(f, Definitions)
    case 3 => ItemsPart(f)
    case 4 => ListedParts(f, AnyOf)
    case 5 => ListedParts(f, OneOf)
    case _ => []
  }

  function Groups(f: Fields, x: nat): seq<Part> {
    if x == 0 then [] else Groups(f, x - 1) + Group(f, x - 1)
  }

  lemma PartsAreGroups(f: Fields)
    ensures Parts(f) == Groups(f, 6)
  {
    assert Groups(f, 1) == Group(f, 0);
    assert Groups(f, 2) == Groups(f, 1) + Group(f, 1);
    assert Groups(f, 3) == Groups(f, 2) + Group(f, 2);
    assert Groups(f, 4) == Groups(f, 3) + Group(f, 3);
    assert Groups(f, 5) == Groups(f, 4) + Group(f, 4);
  }

  /** The part with the label `at` is the `p`th of those under the `x`th keyword. */
  predicate PartAt(f: Fields, x: nat, p: nat, part: Part) {
    && x < |ORDER| && Has(f, Parse(ORDER[x])) && part.0 != [] && part.0[0] == ORDER[x]
    && var v := Value(f, Parse(ORDER[x]));
       if x == 3 then p == 0 && part.1 == v else p < Size(v) && part.1 == Child(v, p)
  }

  lemma GroupAt(f: Fields, x: nat, p: nat)
    requires x < 6 && p < |Group(f, x)|
    ensures PartAt(f, x, p, Group(f, x)[p])
  {
    ParsedOrder();
  }

  lemma ParsedOrder()
    ensures Parse(ORDER[0]) == Properties && Parse(ORDER[1]) == Defs && Parse(ORDER[2]) == Definitions
    ensures Parse(ORDER[3]) == Items && Parse(ORDER[4]) == AnyOf && Parse(ORDER[5]) == OneOf
  {
  }

  lemma {:induction false} Located(f: Fields, y: nat, i: nat) returns (x: nat, p: nat)
    requires y <= 6 && i < |Groups(f, y)|
    ensures x < y && p < |Group(f, x)| && i == |Groups(f, x)| + p && Groups(f, y)[i] == Group(f, x)[p]
  {
    if i < |Groups(f, y - 1)| {
      x, p := Located(f, y - 1, i);
    } else {
      x, p := y - 1, i - |Groups(f, y - 1)|;
    }
  }

  lemma {:induction false} GroupsGrow(f: Fields, x: nat, y: nat)
    requires x < y
    ensures |Groups(f, x)| + |Group(f, x)| <= |Groups(f, y)|
  {
    if x < y - 1 { GroupsGrow(f, x, y - 1); }
  }

  /** `b` comes after `a`: under a later keyword, or later under the same one. */
  ghost predicate InOrder(f: Fields, a: Part, b: Part) {
    exists x: nat, p: nat, y: nat, q: nat ::
      PartAt(f, x, p, a) && PartAt(f, y, q, b) && (x < y || (x == y && p < q))
  }

  /** Parts are visited keyword by keyword, and under a keyword in the order in which the document lists them. */
  lemma PartsInOrder(f: Fields, i: nat, j: nat)
    requires i < j < |Parts(f)|
    ensures InOrder(f, Parts(f)[i], Parts(f)[j])
  {
    PartsAreGroups(f);
    var x, p := Located(f, 6, i);
    var y, q := Located(f, 6, j);
    GroupAt(f, x, p);
    GroupAt(f, y, q);
    if y < x { GroupsGrow(f, y, x); }
  }

  // ---- the whole conversion ----------------------------------------------------------------

  /** `to_strict_json_schema`. */
  function ToStrict(schema: Json, limit: nat): Result<Json> {
    var normalized :- Normalize(schema, limit);
    var e := Validate(normalized, []);
    if e.Some? then Err(e.value) else Ok(normalized)
  }

  predicate StrictAt(n: Json, steps: seq<nat>) {
    var m := Reached(n, steps);
    m.Some? && m.value.Obj? ==> TopNormal(m.value.fields) && forall k | k in UNSUPPORTED :: !Has(m.value.fields, k)
  }

  /** Each place the validator reaches is a place the rewriter visited. */
  lemma {:induction false} ReachedNormal(n: Json, steps: seq<nat>, d: nat)
    requires Normal(n, d) && Reached(n, steps).Some?
    ensures exists e :: 0 <= e <= d && Normal(Reached(n, steps).value, e)
    decreases |steps|
  {
    if steps == [] {
      assert Normal(n, d);
    } else {
      var f := n.fields;
      PartNormal(n, f, Parts(f)[steps[0]], d);
      ReachedNormal(Parts(f)[steps[0]].1, steps[1..], d - 1);
    }
  }

  lemma PartNormal(n: Json, f: Fields, x: Part, d: nat)
    requires n == Obj(f) && Normal(n, d) && x in Parts(f)
    ensures d > 0 && Normal(x.1, d - 1)
  {
    var k := PartKey(f, x);
    assert NormalUnder(n, f, k, d - 1);
    var v := Value(f, k);
    if k != Items {
      var j :| 0 <= j < Size(v) && x.1 == Child(v, j);
    }
  }

  lemma PartKey(f: Fields, x: Part) returns (k: Name)
    requires x in Parts(f)
    ensures k in SUBSCHEMA_KEYS && Has(f, k)
    ensures if k == Items then x.1 == Value(f, k) && x.1.Obj?
            else VisitsMembers(k, Value(f, k)) &&
                 exists j | 0 <= j < Size(Value(f, k)) :: x.1 == Child(Value(f, k), j)
  {
    if x in NamedParts(f, Properties) { k := Properties; NamedKey(f, k, x); }
    else if x in NamedParts(f, Defs) { k := Defs; NamedKey(f, k, x); }
    else if x in NamedParts(f, Definitions) { k := Definitions; NamedKey(f, k, x); }
    else if x in ItemsPart(f) { k := Items; }
    else if x in ListedParts(f, AnyOf) { k := AnyOf; ListedKey(f, k, x); }
    else { k := OneOf; ListedKey(f, k, x); }
  }

  lemma NamedKey(f: Fields, k: Name, x: Part)
    requires x in NamedParts(f, k)
    ensures Has(f, k) && Value(f, k).Obj? && exists j | 0 <= j < Size(Value(f, k)) :: x.1 == Child(Value(f, k), j)
  {
    var j :| 0 <= j < |NamedParts(f, k)| && NamedParts(f, k)[j] == x;
    assert x.1 == Child(Value(f, k), j);
  }

  lemma ListedKey(f: Fields, k: Name, x: Part)
    requires x in ListedParts(f, k)
    ensures Has(f, k) && Value(f, k).Arr? && exists j | 0 <= j < Size(Value(f, k)) :: x.1 == Child(Value(f, k), j)
  {
    var j :| 0 <= j < |ListedParts(f, k)| && ListedParts(f, k)[j] == x;
    assert x.1 == Child(Value(f, k), j);
  }

  lemma NothingUnsupported(f: Fields, k: Name)
    requires Unsupported(f) == {} && k in UNSUPPORTED
    ensures !Has(f, k)
  {
    assert Has(f, k) ==> Spell(k) in Unsupported(f);
  }

  /**
   A strict schema is in normal form, its root is an object schema without `anyOf`, no reachable place
   has an unsupported keyword, and converting it again returns it unchanged.
   */
  lemma ToStrictIsStrict(schema: Json, limit: nat)
    requires ToStrict(schema, limit).Ok?
    ensures var v := ToStrict(schema, limit).value;
            && Normal(v, limit) && RootFits(v) && (forall steps :: StrictAt(v, steps))
            && ToStrict(v, limit) == Ok(v)
  {
    NormalizeNormalAndIdempotent(schema, limit);
    var v := ToStrict(schema, limit).value;
    ValidateIff(v, []);
    forall steps ensures StrictAt(v, steps) {
      assert CleanAt(v, steps);
      CleanIsStrict(v, steps, limit);
    }
  }

  lemma CleanIsStrict(v: Json, steps: seq<nat>, limit: nat)
    requires Normal(v, limit) && CleanAt(v, steps)
    ensures StrictAt(v, steps)
  {
    if Reached(v, steps).Some? && Reached(v, steps).value.Obj? {
      var f := Reached(v, steps).value.fields;
      ReachedNormal(v, steps, limit);
      forall k | k in UNSUPPORTED ensures !Has(f, k) { NothingUnsupported(f, k); }
    }
  }

  /** Conversion changes nothing exactly on the documents that are normal, clean and rooted in an object. */
  lemma ToStrictFixedIff(schema: Json, limit: nat)
    ensures ToStrict(schema, limit) == Ok(schema) <==> Normal(schema, limit) && Clean(schema) && RootFits(schema)
  {
    NormalIffUnchanged(schema, limit);
    ValidateIff(schema, []);
  }
}
