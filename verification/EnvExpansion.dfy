/**
 `${VAR}` and `${VAR:-default}` in configuration files: core/app/llmhubs/config_loader.py.
 */
module EnvExpansion {
  import opened Options

  type Env = map<string, string>

  // ---- the pattern -------------------------------------------------------------------------

  predicate NameStart(c: char) {
    'A' <= c <= 'Z' || 'a' <= c <= 'z' || c == '_'
  }

  predicate NameChar(c: char) {
    NameStart(c) || '0' <= c <= '9'
  }

  /** The end of the longest run of name characters from `j` on. */
  function NameEnd(s: string, j: nat): (e: nat)
    requires j <= |s|
    ensures j <= e <= |s|
    decreases |s| - j
  {
    if j < |s| && NameChar(s[j]) then NameEnd(s, j + 1) else j
  }

  /** The first `c` from `j` on, or the end. */
  function Find(s: string, c: char, j: nat): (e: nat)
    requires j <= |s|
    ensures j <= e <= |s|
    decreases |s| - j
  {
    if j < |s| && s[j] != c then Find(s, c, j + 1) else j
  }

  datatype Reference = Reference(name: string, fallback: Option<string>, end: nat)

  /** An unescaped `${` at `i`. */
  predicate Opens(s: string, i: nat) {
    i + 1 < |s| && s[i] == '$' && s[i + 1] == '{' && !(i > 0 && s[i - 1] == '\\')
  }

  /** The match of the pattern that starts at `i`. */
  function MatchAt(s: string, i: nat): (r: Option<Reference>)
    ensures r.Some? ==> Opens(s, i) && i < r.value.end <= |s|
  {
    if !Opens(s, i) || i + 2 >= |s| || !NameStart(s[i + 2]) then None
    else
      var e := NameEnd(s, i + 3);
      if e < |s| && s[e] == '}' then Some(Reference(s[i + 2..e], None, e + 1))
      else if e + 1 < |s| && s[e] == ':' && s[e + 1] == '-' then
        var q := Find(s, '}', e + 2);
        if q < |s| then Some(Reference(s[i + 2..e], Some(s[e + 2..q]), q + 1)) else None
      else None
  }

  // ---- one string --------------------------------------------------------------------------

  datatype Token = Char(c: char) | Ref(ref: Reference, source: string)

  /** `re.sub` from `i` on: leftmost matches that do not overlap, and the characters between them. */
  function Tokens(s: string, i: nat): seq<Token>
    requires i <= |s|
    decreases |s| - i
  {
    if i == |s| then []
    else
      var m := MatchAt(s, i);
      if m.Some? then [Ref(m.value, s[i..m.value.end])] + Tokens(s, m.value.end) else [Char(s[i])] + Tokens(s, i + 1)
  }

  predicate Unset(env: Env, name: string) {
    name !in env || env[name] == ""
  }

  function Substituted(t: Token, env: Env): string {
    match t
    case Char(c) => [c]
    case Ref(ref, _) =>
      if !Unset(env, ref.name) then env[ref.name] else if ref.fallback.Some? then ref.fallback.value else ""
  }

  predicate IsMissing(t: Token, env: Env) {
    t.Ref? && Unset(env, t.ref.name) && t.ref.fallback.None?
  }

  function Joined(ts: seq<Token>, env: Env): string {
    if ts == [] then "" else Substituted(ts[0], env) + Joined(ts[1..], env)
  }

  function MissingIn(ts: seq<Token>, env: Env): seq<string> {
    if ts == [] then [] else (if IsMissing(ts[0], env) then [ts[0].ref.name] else []) + MissingIn(ts[1..], env)
  }

  predicate StartsEscaped(s: string) {
    |s| >= 3 && s[0] == '\\' && s[1] == '$' && s[2] == '{'
  }

  /** `s.replace("\\${", "${")`. */
  function Unescaped(s: string): string {
    if s == "" then "" else if StartsEscaped(s) then "${" + Unescaped(s[3..]) else [s[0]] + Unescaped(s[1..])
  }

  /** `_expand_env_in_string`: the text and the names it adds to the missing ones. */
  function ExpandString(s: string, env: Env): (string, seq<string>) {
    (Unescaped(Joined(Tokens(s, 0), env)), MissingIn(Tokens(s, 0), env))
  }

  predicate StartsOpen(s: string) {
    |s| >= 2 && s[0] == '$' && s[1] == '{'
  }

  /** Prefixing each `${` with a backslash. */
  function Escaped(s: string): string {
    if s == "" then "" else if StartsOpen(s) then "\\${" + Escaped(s[2..]) else [s[0]] + Escaped(s[1..])
  }

  // ---- what the tokens are -----------------------------------------------------------------

  function SourceOf(ts: seq<Token>): string {
    if ts == [] then "" else (if ts[0].Char? then [ts[0].c] else ts[0].source) + SourceOf(ts[1..])
  }

  /** The tokens are the string, cut up. */
  lemma {:induction false} TokensCover(s: string, i: nat)
    requires i <= |s|
    ensures SourceOf(Tokens(s, i)) == s[i..]
    decreases |s| - i
  {
    if i < |s| {
      var m := MatchAt(s, i);
      var next := if m.Some? then m.value.end else i + 1;
      TokensCover(s, next);
      assert s[i..] == s[i..next] + s[next..];
    }
  }

  /** Where nothing opens, every token is a character. */
  lemma {:induction false} NothingOpens(s: string, i: nat, env: Env)
    requires i <= |s| && forall j | i <= j < |s| :: !Opens(s, j)
    ensures Joined(Tokens(s, i), env) == s[i..] && MissingIn(Tokens(s, i), env) == []
    decreases |s| - i
  {
    if i < |s| {
      NothingOpens(s, i + 1, env);
      assert s[i..] == [s[i]] + s[i + 1..];
    }
  }

  // ---- round trip --------------------------------------------------------------------------

  lemma EscapedStart(s: string)
    ensures !StartsOpen(Escaped(s))
    ensures s != "" && !StartsOpen(s) ==> Escaped(s) != "" && Escaped(s)[0] == s[0]
  {
    if s != "" && !StartsOpen(s) && |s| >= 2 && s[0] == '$' {
      assert Escaped(s)[1..] == Escaped(s[1..]);
      assert s[1..][0] == s[1];
    }
  }

  lemma {:induction false} UnescapeEscape(s: string)
    ensures Unescaped(Escaped(s)) == s
  {
    if s == "" {
    } else if StartsOpen(s) {
      UnescapeEscape(s[2..]);
      var e := Escaped(s);
      assert e[0] == '\\' && e[1] == '$' && e[2] == '{' && e[3..] == Escaped(s[2..]);
      assert s == "${" + s[2..];
    } else {
      UnescapeEscape(s[1..]);
      var e := Escaped(s);
      assert e[1..] == Escaped(s[1..]);
      EscapedStart(s[1..]);
      assert !StartsEscaped(e);
      assert s == [s[0]] + s[1..];
    }
  }

  /** In an escaped string every `${` has a backslash before it. */
  lemma {:induction false} EscapedOpens(s: string, i: nat)
    requires i + 1 < |Escaped(s)| && Escaped(s)[i] == '$' && Escaped(s)[i + 1] == '{'
    ensures i > 0 && Escaped(s)[i - 1] == '\\'
  {
    var e := Escaped(s);
    if StartsOpen(s) {
      assert e == "\\${" + Escaped(s[2..]);
      if i >= 3 {
        assert e[3..] == Escaped(s[2..]);
        assert e[3..][i - 3] == e[i] && e[3..][i - 2] == e[i + 1];
        EscapedOpens(s[2..], i - 3);
        assert e[3..][i - 4] == e[i - 1];
      }
    } else {
      assert e[1..] == Escaped(s[1..]);
      EscapedStart(s);
      assert i > 0;
      assert e[1..][i - 1] == e[i] && e[1..][i] == e[i + 1];
      EscapedOpens(s[1..], i - 1);
      assert e[1..][i - 2] == e[i - 1];
    }
  }

  /** Escaping and then expanding gives every string back, whatever the environment, with nothing missing. */
  lemma ExpandEscaped(s: string, env: Env)
    ensures ExpandString(Escaped(s), env) == (s, [])
  {
    var e := Escaped(s);
    forall j | 0 <= j < |e| ensures !Opens(e, j) {
      if j + 1 < |e| && e[j] == '$' && e[j + 1] == '{' { EscapedOpens(s, j); }
    }
    NothingOpens(e, 0, env);
    assert e[0..] == e;
    UnescapeEscape(s);
  }

  // ---- which names are missing -------------------------------------------------------------

  /** Where the scan goes from `i`: behind the match there, or to the next character. */
  function After(s: string, i: nat): (j: nat)
    requires i < |s|
    ensures i < j <= |s|
  {
    if MatchAt(s, i).Some? then MatchAt(s, i).value.end else i + 1
  }

  /** The positions at which the scan stands, from `i` on. */
  function Stops(s: string, i: nat): seq<nat>
    requires i <= |s|
    decreases |s| - i
  {
    if i == |s| then [] else [i] + Stops(s, After(s, i))
  }

  /** An unescaped reference to `name` at `i`, without a default, to a variable that is unset or empty. */
  predicate MissingAt(s: string, env: Env, i: nat, name: string) {
    var m := MatchAt(s, i);
    m.Some? && m.value.name == name && m.value.fallback.None? && Unset(env, name)
  }

  lemma {:induction false} StopsFrom(s: string, i: nat, p: nat)
    requires i <= |s| && p in Stops(s, i)
    ensures i <= p < |s|
    decreases |s| - i
  {
    if p != i { StopsFrom(s, After(s, i), p); }
  }

  /** The scan stands everywhere but inside the matches it has passed. */
  lemma {:induction false} StopsIff(s: string, i: nat, p: nat)
    requires i <= p < |s|
    ensures p in Stops(s, i) <==> forall q | q in Stops(s, i) && q < p :: After(s, q) <= p
    decreases |s| - i
  {
    var j := After(s, i);
    assert Stops(s, i) == [i] + Stops(s, j);
    if p == i {
      forall q | q in Stops(s, i) ensures q >= p { StopsFrom(s, i, q); }
    } else if p < j {
      assert i in Stops(s, i) && After(s, i) > p;
      if p in Stops(s, i) { StopsFrom(s, j, p); }
    } else {
      StopsIff(s, j, p);
    }
  }

  /** A place in a list of strings where a name is missing. */
  datatype Site = Site(at: nat, pos: nat, name: string)

  predicate Before(a: Site, b: Site) {
    a.at < b.at || (a.at == b.at && a.pos < b.pos)
  }

  /** The places in one string, the `a`th, from `i` on. */
  function SitesIn(s: string, env: Env, i: nat, a: nat): seq<Site>
    requires i <= |s|
    decreases |s| - i
  {
    if i == |s| then []
    else
      var m := MatchAt(s, i);
      (if m.Some? && MissingAt(s, env, i, m.value.name) then [Site(a, i, m.value.name)] else []) +
      SitesIn(s, env, After(s, i), a)
  }

  function NamesOf(sites: seq<Site>): (r: seq<string>)
    ensures |r| == |sites|
  {
    seq(|sites|, k requires 0 <= k < |sites| => sites[k].name)
  }

  lemma NamesAppend(x: seq<Site>, y: seq<Site>)
    ensures NamesOf(x + y) == NamesOf(x) + NamesOf(y)
  {
  }

  /** The reported names are those of the places, in order. */
  lemma {:induction false} SitesNames(s: string, env: Env, i: nat, a: nat)
    requires i <= |s|
    ensures NamesOf(SitesIn(s, env, i, a)) == MissingIn(Tokens(s, i), env)
    decreases |s| - i
  {
    if i < |s| {
      SitesNames(s, env, After(s, i), a);
      var m := MatchAt(s, i);
      var t := if m.Some? then Ref(m.value, s[i..m.value.end]) else Char(s[i]);
      assert Tokens(s, i) == [t] + Tokens(s, After(s, i));
      assert IsMissing(t, env) <==> m.Some? && MissingAt(s, env, i, m.value.name);
      var here := if IsMissing(t, env) then [Site(a, i, m.value.name)] else [];
      NamesAppend(here, SitesIn(s, env, After(s, i), a));
    }
  }

  /** The places are exactly the missing references at which the scan stands. */
  lemma {:induction false} SitesIff(s: string, env: Env, i: nat, a: nat, x: Site)
    requires i <= |s|
    ensures x in SitesIn(s, env, i, a) <==> x.at == a && x.pos in Stops(s, i) && MissingAt(s, env, x.pos, x.name)
    decreases |s| - i
  {
    if i < |s| {
      var j := After(s, i);
      SitesIff(s, env, j, a, x);
      assert Stops(s, i) == [i] + Stops(s, j);
      if x.pos in Stops(s, j) { StopsFrom(s, j, x.pos); }
    }
  }

  lemma {:induction false} SitesOrdered(s: string, env: Env, i: nat, a: nat)
    requires i <= |s|
    ensures forall k, l | 0 <= k < l < |SitesIn(s, env, i, a)| ::
              Before(SitesIn(s, env, i, a)[k], SitesIn(s, env, i, a)[l])
    decreases |s| - i
  {
    if i < |s| {
      var rest := SitesIn(s, env, After(s, i), a);
      SitesOrdered(s, env, After(s, i), a);
      forall k | 0 <= k < |rest| ensures rest[k].at == a && rest[k].pos > i {
        assert rest[k] in rest;
        SitesIff(s, env, After(s, i), a, rest[k]);
        StopsFrom(s, After(s, i), rest[k].pos);
      }
    }
  }

  // ---- unescaping reaches substituted values -----------------------------------------------

  predicate EscapedAt(s: string, i: nat) {
    i + 2 < |s| && s[i] == '\\' && s[i + 1] == '$' && s[i + 2] == '{'
  }

  /** An escaped `${` that the template itself spells out. */
  predicate Spelled(ts: seq<Token>) {
    |ts| >= 3 && ts[0] == Char('\\') && ts[1] == Char('$') && ts[2] == Char('{')
  }

  /** The text with every value as it is and only the template's own escapes resolved. */
  function Verbatim(ts: seq<Token>, env: Env): string {
    if ts == [] then ""
    else if Spelled(ts) then "${" + Verbatim(ts[3..], env)
    else Substituted(ts[0], env) + Verbatim(ts[1..], env)
  }

  /** No escaped `${` arises but those the template spells out. */
  predicate NoNewEscape(ts: seq<Token>, env: Env) {
    if ts == [] then true
    else if Spelled(ts) then NoNewEscape(ts[3..], env)
    else
      && (forall i | 0 <= i < |Substituted(ts[0], env)| :: !EscapedAt(Joined(ts, env), i))
      && NoNewEscape(ts[1..], env)
  }

  /** How many escaped `${` a string has. */
  function Escapes(s: string): nat {
    if s == "" then 0 else if StartsEscaped(s) then 1 + Escapes(s[3..]) else Escapes(s[1..])
  }

  function SpelledCount(ts: seq<Token>): nat {
    if ts == [] then 0 else if Spelled(ts) then 1 + SpelledCount(ts[3..]) else SpelledCount(ts[1..])
  }

  lemma {:induction false} UnescapedLength(s: string)
    ensures |Unescaped(s)| == |s| - Escapes(s)
  {
    if s != "" { UnescapedLength(if StartsEscaped(s) then s[3..] else s[1..]); }
  }

  /** A prefix in which no escape starts is copied; one in which an escape starts makes the text shorter. */
  lemma {:induction false} SkipPrefix(u: string, v: string)
    ensures Escapes(u + v) >= Escapes(v)
    ensures (forall i | 0 <= i < |u| :: !EscapedAt(u + v, i)) ==>
              Escapes(u + v) == Escapes(v) && Unescaped(u + v) == u + Unescaped(v)
    ensures (exists i | 0 <= i < |u| :: EscapedAt(u + v, i)) ==> Escapes(u + v) > Escapes(v)
  {
    var s := u + v;
    if u == "" {
      assert s == v;
    } else {
      var t := u[1..] + v;
      SkipPrefix(u[1..], v);
      assert s[1..] == t && s[0] == u[0];
      assert forall i | 0 <= i < |u| - 1 :: EscapedAt(t, i) == EscapedAt(s, i + 1);
      assert StartsEscaped(s) == EscapedAt(s, 0);
      if StartsEscaped(s) {
        AfterEscape(s);
        assert Escapes(s) == 1 + Escapes(t);
      } else {
        if i :| 0 <= i < |u| && EscapedAt(s, i) { assert EscapedAt(t, i - 1); }
        Rejoin(u[0], u[1..], Unescaped(v));
        assert [u[0]] + u[1..] == u;
      }
    }
  }

  lemma Rejoin(c: char, a: string, b: string)
    ensures [c] + (a + b) == [c] + a + b
  {
  }

  /** The two characters after the backslash start no escape themselves. */
  lemma AfterEscape(s: string)
    requires StartsEscaped(s)
    ensures Escapes(s[1..]) == Escapes(s[3..])
  {
    var t := s[1..];
    assert t[0] == '$' && t[1] == '{' && t[1..][1..] == s[3..];
    assert !StartsEscaped(t) && !StartsEscaped(t[1..]);
  }

  lemma SpelledJoins(ts: seq<Token>, env: Env)
    requires Spelled(ts)
    ensures StartsEscaped(Joined(ts, env)) && Joined(ts, env)[3..] == Joined(ts[3..], env)
  {
    assert ts[1..][0] == ts[1] && ts[2..][0] == ts[2] && ts[1..][1..] == ts[2..] && ts[2..][1..] == ts[3..];
    assert Joined(ts[2..], env) == "{" + Joined(ts[3..], env);
    assert Joined(ts[1..], env) == "$" + Joined(ts[2..], env);
    assert Joined(ts, env) == "\\" + Joined(ts[1..], env);
  }

  lemma {:induction false} EscapesCounted(ts: seq<Token>, env: Env)
    ensures Escapes(Joined(ts, env)) >= SpelledCount(ts)
    ensures Escapes(Joined(ts, env)) == SpelledCount(ts) <==> NoNewEscape(ts, env)
    ensures |Verbatim(ts, env)| == |Joined(ts, env)| - SpelledCount(ts)
    ensures NoNewEscape(ts, env) ==> Unescaped(Joined(ts, env)) == Verbatim(ts, env)
  {
    if ts == [] {
    } else if Spelled(ts) {
      EscapesCounted(ts[3..], env);
      SpelledJoins(ts, env);
    } else {
      EscapesCounted(ts[1..], env);
      SkipPrefix(Substituted(ts[0], env), Joined(ts[1..], env));
    }
  }

  /**
   Every value arrives as it is, and only the escapes the template spells out are resolved, exactly when
   no other escaped `${` arises, inside a value or across its ends: the final replacement also runs over
   what was substituted.
   */
  lemma ValuesArriveIff(s: string, env: Env)
    ensures ExpandString(s, env).0 == Verbatim(Tokens(s, 0), env) <==> NoNewEscape(Tokens(s, 0), env)
  {
    EscapesCounted(Tokens(s, 0), env);
    UnescapedLength(Joined(Tokens(s, 0), env));
  }

  lemma BackslashTokens()
    ensures Tokens("${V}${}", 0) == [Ref(Reference("V", None, 4), "${V}"), Char('$'), Char('{'), Char('}')]
  {
    var s := "${V}${}";
    assert NameEnd(s, 3) == 3 && s[2..3] == "V" && s[0..4] == "${V}";
    assert MatchAt(s, 0) == Some(Reference("V", None, 4));
    assert Tokens(s, 7) == [] && Tokens(s, 6) == [Char('}')] && Tokens(s, 5) == [Char('{'), Char('}')];
    assert Tokens(s, 4) == [Char('$'), Char('{'), Char('}')];
  }

  lemma LiteralTail(ts: seq<Token>, env: Env)
    requires ts == [Char('$'), Char('{'), Char('}')]
    ensures Joined(ts, env) == Verbatim(ts, env) == "${}" && MissingIn(ts, env) == []
  {
    var r2, r3 := ts[1..], ts[2..];
    assert r2[1..] == r3 && r3[1..] == [] && r2[0] == Char('{') && r3[0] == Char('}');
    assert Joined(r3, env) == "}" && Joined(r2, env) == "{}";
    assert !Spelled(ts) && !Spelled(r2) && !Spelled(r3);
    assert Verbatim(r3, env) == "}";
    assert Verbatim(r2, env) == Substituted(r2[0], env) + Verbatim(r2[1..], env) == "{}";
    assert MissingIn(r3, env) == [] && MissingIn(r2, env) == [];
  }

  /** A value that ends in a backslash loses it before a literal `${`, though neither holds an escape of its own. */
  lemma BackslashIsLost()
    ensures ExpandString("${V}${}", map["V" := "a\\"]) == ("a${}", [])
    ensures Verbatim(Tokens("${V}${}", 0), map["V" := "a\\"]) == "a\\${}"
  {
    var env: Env := map["V" := "a\\"];
    var ts := Tokens("${V}${}", 0);
    BackslashTokens();
    LiteralTail(ts[1..], env);
    var j := Joined(ts, env);
    assert j == "a\\${}";
    assert j[1..][3..] == "}" && Unescaped("}") == "}";
    assert Unescaped(j[1..]) == "${}" && Unescaped(j) == "a${}";
  }
}
