/**
 Fresh aliases for imports: `ensureImport` of backend/cmd/otelwrapgen/generator.go.
 */
module ImportAliases {
  import opened Decimals

  // ---- names -------------------------------------------------------------------------------

  function TrimSlashes(s: string): string {
    if s != "" && s[|s| - 1] == '/' then TrimSlashes(s[..|s| - 1]) else s
  }

  function AfterSlash(s: string): string {
    if s == "" then "" else if s[|s| - 1] == '/' then "" else AfterSlash(s[..|s| - 1]) + [s[|s| - 1]]
  }

  /** `path.Base`. */
  function Base(path: string): string {
    if path == "" then "."
    else
      var s := AfterSlash(TrimSlashes(path));
      if s == "" then "/" else s
  }

  /** The aliases that are tried: `base`, `base2`, `base3`, ... */
  function Candidate(base: string, i: nat): string {
    if i == 0 then base else base + Decimal(i + 1)
  }

  lemma CandidatesDiffer(base: string, i: nat, j: nat)
    requires i != j
    ensures Candidate(base, i) != Candidate(base, j)
  {
    if i > 0 && j > 0 && Candidate(base, i) == Candidate(base, j) {
      assert Candidate(base, i)[|base|..] == Decimal(i + 1) && Candidate(base, j)[|base|..] == Decimal(j + 1);
      DecimalInjective(i + 1, j + 1);
    }
  }

  function FirstCandidates(base: string, k: nat): set<string> {
    set i | 0 <= i < k :: Candidate(base, i)
  }

  lemma {:induction false} CandidatesCount(base: string, k: nat)
    ensures |FirstCandidates(base, k)| == k
  {
    if k > 0 {
      CandidatesCount(base, k - 1);
      assert FirstCandidates(base, k) == FirstCandidates(base, k - 1) + {Candidate(base, k - 1)};
      if Candidate(base, k - 1) in FirstCandidates(base, k - 1) {
        var i :| 0 <= i < k - 1 && Candidate(base, i) == Candidate(base, k - 1);
        CandidatesDiffer(base, i, k - 1);
      }
    } else {
      assert FirstCandidates(base, 0) == {};
    }
  }

  lemma SubsetSize<T>(a: set<T>, b: set<T>)
    requires a <= b
    ensures |a| <= |b|
  {
    assert b == a + (b - a);
  }

  /** Pigeonhole: as many candidates can be taken as there are aliases in use. */
  lemma TakenBound(base: string, used: set<string>, k: nat)
    requires forall i | 0 <= i < k :: Candidate(base, i) in used
    ensures k <= |used|
  {
    CandidatesCount(base, k);
    SubsetSize(FirstCandidates(base, k), used);
  }

  /** The number of the first candidate from `k` on that is not in use. */
  function FirstFree(base: string, used: set<string>, k: nat): (r: nat)
    requires forall i | 0 <= i < k :: Candidate(base, i) in used
    ensures k <= r <= |used| && Candidate(base, r) !in used
    ensures forall i | k <= i < r :: Candidate(base, i) in used
    decreases |used| - k
  {
    TakenBound(base, used, k);
    if Candidate(base, k) !in used then k
    else
      TakenBound(base, used, k + 1);
      FirstFree(base, used, k + 1)
  }

  // ---- the table of imports ----------------------------------------------------------------

  type Imports = map<string, string>

  function Suggestion(path: string, suggested: string): string {
    if suggested == "" then Base(path) else suggested
  }

  /** The table after a call. */
  function Ensured(imports: Imports, path: string, suggested: string): Imports {
    if path in imports then imports
    else
      var base := Suggestion(path, suggested);
      imports[path := Candidate(base, FirstFree(base, imports.Values, 0))]
  }

  predicate Injective(imports: Imports) {
    forall p, q | p in imports && q in imports && p != q :: imports[p] != imports[q]
  }

  datatype Request = Request(path: string, suggested: string)

  function EnsuredAll(imports: Imports, requests: seq<Request>): Imports {
    if requests == [] then imports
    else
      var n := |requests| - 1;
      Ensured(EnsuredAll(imports, requests[..n]), requests[n].path, requests[n].suggested)
  }

  /**
   After any sequence of calls different packages have different aliases, every requested package has
   one, and an alias once given never changes.
   */
  lemma {:induction false} AliasesInjectiveAndStable(imports: Imports, requests: seq<Request>)
    requires Injective(imports)
    ensures Injective(EnsuredAll(imports, requests))
    ensures forall p | p in imports ::
              p in EnsuredAll(imports, requests) && EnsuredAll(imports, requests)[p] == imports[p]
    ensures forall i | 0 <= i < |requests| :: requests[i].path in EnsuredAll(imports, requests)
  {
    if requests != [] {
      var n := |requests| - 1;
      AliasesInjectiveAndStable(imports, requests[..n]);
      var before := EnsuredAll(imports, requests[..n]);
      assert forall i | 0 <= i < n :: requests[..n][i] == requests[i];
      EnsuredInjective(before, requests[n].path, requests[n].suggested);
    }
  }

  lemma EnsuredInjective(imports: Imports, path: string, suggested: string)
    requires Injective(imports)
    ensures Injective(Ensured(imports, path, suggested)) && path in Ensured(imports, path, suggested)
    ensures forall p | p in imports ::
              p in Ensured(imports, path, suggested) && Ensured(imports, path, suggested)[p] == imports[p]
  {
    var after := Ensured(imports, path, suggested);
    if path !in imports {
      forall p | p in imports ensures after[p] != after[path] { assert imports[p] in imports.Values; }
    }
  }

  // ---- which alias -------------------------------------------------------------------------

  /** The alias given to `path`, with `n` appended if it is not the first choice. */
  predicate Numbered(imports: Imports, base: string, n: nat, alias: string) {
    && n >= 2 && alias == base + Decimal(n) && alias !in imports.Values
    && forall m: nat | 2 <= m < n :: base + Decimal(m) in imports.Values
  }

  /**
   A new package gets the suggested name, or the last part of its path, if no import has it; otherwise the same with
   the least number from 2 on that makes it free.
   */
  lemma NewAlias(imports: Imports, path: string, suggested: string)
    requires path !in imports
    ensures path in Ensured(imports, path, suggested)
    ensures var base := if suggested == "" then Base(path) else suggested;
            var alias := Ensured(imports, path, suggested)[path];
            if base in imports.Values then exists n: nat :: Numbered(imports, base, n, alias) else alias == base
  {
    var base := Suggestion(path, suggested);
    var r := FirstFree(base, imports.Values, 0);
    assert Candidate(base, 0) == base;
    if base in imports.Values {
      forall m: nat | 2 <= m < r + 1 ensures base + Decimal(m) in imports.Values {
        assert Candidate(base, m - 1) in imports.Values;
      }
      assert Numbered(imports, base, r + 1, Candidate(base, r));
    }
  }

  predicate Slashes(s: string) {
    forall i | 0 <= i < |s| :: s[i] == '/'
  }

  predicate Slashless(s: string) {
    forall i | 0 <= i < |s| :: s[i] != '/'
  }

  lemma {:induction false} TrimmedAway(s: string, t: string)
    requires Slashes(t) && (s == "" || s[|s| - 1] != '/')
    ensures TrimSlashes(s + t) == s
    decreases |t|
  {
    if t == "" {
      assert s + t == s;
    } else {
      assert (s + t)[..|s + t| - 1] == s + t[..|t| - 1];
      TrimmedAway(s, t[..|t| - 1]);
    }
  }

  lemma {:induction false} LastPart(s: string, name: string)
    requires Slashless(name) && (s == "" || s[|s| - 1] == '/')
    ensures AfterSlash(s + name) == name
    decreases |name|
  {
    if name == "" {
      assert s + name == s;
    } else {
      var n := |name| - 1;
      assert (s + name)[..|s + name| - 1] == s + name[..n];
      LastPart(s, name[..n]);
      assert name == name[..n] + [name[n]];
    }
  }

  /** The last part of a path is what stands before slashes at its end and after the slash before that, if any. */
  lemma BaseIs(dir: string, name: string, slashes: string)
    requires name != "" && Slashless(name) && Slashes(slashes) && (dir == "" || dir[|dir| - 1] == '/')
    ensures Base(dir + name + slashes) == name
    ensures Base("") == "." && (slashes != "" ==> Base(slashes) == "/")
  {
    TrimmedAway(dir + name, slashes);
    LastPart(dir, name);
    TrimmedAway("", slashes);
    assert "" + slashes == slashes;
  }

  class Generator {
    var imports: Imports

    constructor ()
      ensures imports == map[] && Injective(imports)
    {
      imports := map[];
    }

    /** Whether some import goes by this alias: the inner loop over the table. */
    method InUse(alias: string) returns (used: bool)
      ensures used <==> alias in imports.Values
    {
      var todo := imports.Keys;
      used := false;
      while todo != {} && !used
        invariant todo <= imports.Keys
        invariant used ==> alias in imports.Values
        invariant !used ==> forall p | p in imports && p !in todo :: imports[p] != alias
        decreases |todo|
      {
        var p :| p in todo;
        used := imports[p] == alias;
        todo := todo - {p};
      }
    }

    /** `ensureImport`: at most as many aliases are tried as there are imports, plus one. */
    method EnsureImport(path: string, suggested: string) returns (alias: string, ghost tries: nat)
      requires Injective(imports)
      modifies this
      ensures imports == Ensured(old(imports), path, suggested) && Injective(imports)
      ensures path in imports && alias == imports[path]
      ensures tries <= |old(imports)| + 1
    {
      EnsuredInjective(imports, path, suggested);
      tries := 0;
      if path in imports {
        return imports[path], tries;
      }
      var base := if suggested == "" then Base(path) else suggested;
      alias := base;
      var index := 2;
      var used := InUse(alias);
      tries := 1;
      ghost var free := FirstFree(base, imports.Values, 0);
      ValuesBound(imports);
      while used
        invariant index >= 2 && tries == index - 1 && index - 2 <= free
        invariant alias == Candidate(base, index - 2) && (used <==> alias in imports.Values)
        invariant imports == old(imports)
        decreases free + 2 - index
      {
        assert index - 2 != free;
        alias := base + Decimal(index);
        index := index + 1;
        tries := tries + 1;
        used := InUse(alias);
      }
      FirstIsUnique(base, imports.Values, index - 2);
      imports := imports[path := alias];
    }
  }

  lemma FirstIsUnique(base: string, used: set<string>, k: nat)
    requires Candidate(base, k) !in used && k <= FirstFree(base, used, 0)
    ensures FirstFree(base, used, 0) == k
  {
  }

  lemma {:induction false} ValuesBound(imports: Imports)
    ensures |imports.Values| <= |imports|
    decreases |imports|
  {
    if imports != map[] {
      var p :| p in imports;
      var rest := imports - {p};
      ValuesBound(rest);
      assert imports.Values <= rest.Values + {imports[p]} by {
        forall v | v in imports.Values ensures v in rest.Values + {imports[p]} {
          var q :| q in imports && imports[q] == v;
          if q != p { assert rest[q] == v; }
        }
      }
      SubsetSize(imports.Values, rest.Values + {imports[p]});
      assert |rest| == |imports| - 1;
    }
  }
}
