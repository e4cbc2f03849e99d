/**
 What expansion makes of a template, piece by piece, told by the text of the pieces alone:
 core/app/llmhubs/config_loader.py lines 29-58.
 */
module EnvTemplates {
  import opened Options
  import opened EnvExpansion

  /** A plain character, an escaped `${`, a reference, or a reference with a default. */
  datatype Piece = Plain(c: char) | Escape | Var(name: string) | VarOr(name: string, other: string)

  predicate IsName(s: string) {
    && s != "" && !('0' <= s[0] <= '9')
    && forall i | 0 <= i < |s| ::
         'A' <= s[i] <= 'Z' || 'a' <= s[i] <= 'z' || '0' <= s[i] <= '9' || s[i] == '_'
  }

  predicate Valid(p: Piece) {
    match p
    case Plain(c) => c != '$' && c != '\\'
    case Escape => true
    case Var(name) => IsName(name)
    case VarOr(name, other) => IsName(name) && '}' !in other
  }

  function Written(p: Piece): string {
    match p
    case Plain(c) => [c]
    case Escape => "\\${"
    case Var(name) => "${" + name + "}"
    case VarOr(name, other) => "${" + name + ":-" + other + "}"
  }

  /** The value of a variable that is set and not empty, otherwise the default, otherwise nothing. */
  function Answer(p: Piece, env: Env): string {
    match p
    case Plain(c) => [c]
    case Escape => "${"
    case Var(name) => if name in env && env[name] != "" then env[name] else ""
    case VarOr(name, other) => if name in env && env[name] != "" then env[name] else other
  }

  /** A reference without a default to a variable that is unset or empty is reported. */
  function Lacking(p: Piece, env: Env): seq<string> {
    if p.Var? && (p.name !in env || env[p.name] == "") then [p.name] else []
  }

  function WrittenAll(ps: seq<Piece>): string {
    if ps == [] then "" else Written(ps[0]) + WrittenAll(ps[1..])
  }

  function AnswerAll(ps: seq<Piece>, env: Env): string {
    if ps == [] then "" else Answer(ps[0], env) + AnswerAll(ps[1..], env)
  }

  function LackingAll(ps: seq<Piece>, env: Env): seq<string> {
    if ps == [] then [] else Lacking(ps[0], env) + LackingAll(ps[1..], env)
  }

  predicate AllValid(ps: seq<Piece>) {
    forall i | 0 <= i < |ps| :: Valid(ps[i])
  }

  // ---- a reference is matched where it stands ----------------------------------------------

  predicate NotEscaping(u: string) {
    u == "" || u[|u| - 1] != '\\'
  }

  lemma {:induction false} NameRun(s: string, j: nat, e: nat)
    requires j <= e < |s| && (forall i | j <= i < e :: NameChar(s[i])) && !NameChar(s[e])
    ensures NameEnd(s, j) == e
    decreases e - j
  {
    if j < e { NameRun(s, j + 1, e); }
  }

  lemma {:induction false} FindAt(s: string, c: char, j: nat, e: nat)
    requires j <= e < |s| && (forall i | j <= i < e :: s[i] != c) && s[e] == c
    ensures Find(s, c, j) == e
    decreases e - j
  {
    if j < e { FindAt(s, c, j + 1, e); }
  }

  function Width(p: Piece): nat {
    match p
    case Plain(_) => 1
    case Escape => 3
    case Var(name) => |name| + 3
    case VarOr(name, other) => |name| + |other| + 5
  }

  /** The piece stands at `i`, not behind a backslash. */
  predicate StandsAt(s: string, i: nat, p: Piece) {
    && i + Width(p) <= |s| && (i > 0 ==> s[i - 1] != '\\')
    && match p
       case Plain(c) => s[i] == c
       case Escape => s[i] == '\\' && s[i + 1] == '$' && s[i + 2] == '{'
       case Var(name) => NamedAt(s, i, name) && s[i + 2 + |name|] == '}'
       case VarOr(name, other) => NamedAt(s, i, name) && DefaultAt(s, i + 2 + |name|, other)
  }

  predicate NamedAt(s: string, i: nat, name: string) {
    i + 2 + |name| < |s| && s[i] == '$' && s[i + 1] == '{' && s[i + 2..i + 2 + |name|] == name
  }

  predicate DefaultAt(s: string, e: nat, other: string) {
    e + 2 + |other| < |s| && s[e] == ':' && s[e + 1] == '-' && s[e + 2..e + 2 + |other|] == other
    && s[e + 2 + |other|] == '}'
  }

  lemma SliceAt(u: string, w: string, v: string)
    ensures (u + w + v)[|u|..|u| + |w|] == w
  {
  }

  lemma Stands(u: string, p: Piece, v: string)
    requires Valid(p) && NotEscaping(u)
    ensures |Written(p)| == Width(p) && StandsAt(u + Written(p) + v, |u|, p)
  {
    Behind(u, Written(p) + v);
    Regroup(u, Written(p), v);
    if p.Plain? || p.Escape? {
      LiteralStands(u, p, v);
    } else if p.Var? {
      VarStands(u, p.name, v);
    } else {
      VarOrStands(u, p.name, p.other, v);
    }
  }

  lemma Behind(u: string, v: string)
    requires NotEscaping(u)
    ensures |u| > 0 ==> (u + v)[|u| - 1] != '\\'
  {
  }

  lemma LiteralStands(u: string, p: Piece, v: string)
    requires (p.Plain? || p.Escape?) && NotEscaping(u)
    ensures |Written(p)| == Width(p) && StandsAt(u + Written(p) + v, |u|, p)
  {
    var s := u + Written(p) + v;
    if u != "" { assert s[|u| - 1] == u[|u| - 1]; }
    assert s[|u|] == Written(p)[0];
    if p.Escape? { assert s[|u| + 1] == Written(p)[1] && s[|u| + 2] == Written(p)[2]; }
  }

  lemma VarStands(u: string, name: string, v: string)
    ensures var s := u + ("${" + name + "}") + v;
            |s| >= |u| + |name| + 3 && NamedAt(s, |u|, name) && s[|u| + 2 + |name|] == '}'
  {
    var s := u + ("${" + name + "}") + v;
    SliceAt(u + "${", name, "}" + v);
    assert s == u + "${" + name + ("}" + v);
    assert s[|u|] == '$' && s[|u| + 1] == '{';
  }

  lemma VarOrStands(u: string, name: string, other: string, v: string)
    ensures var s := u + ("${" + name + ":-" + other + "}") + v;
            |s| >= |u| + |name| + |other| + 5 && NamedAt(s, |u|, name) && DefaultAt(s, |u| + 2 + |name|, other)
  {
    var s := u + ("${" + name + ":-" + other + "}") + v;
    SliceAt(u + "${", name, ":-" + other + "}" + v);
    assert s == u + "${" + name + (":-" + other + "}" + v);
    SliceAt(u + "${" + name + ":-", other, "}" + v);
    assert s == u + "${" + name + ":-" + other + ("}" + v);
    assert s[|u|] == '$' && s[|u| + 1] == '{';
    assert s[|u| + 2 + |name|] == ':' && s[|u| + 3 + |name|] == '-';
  }

  lemma NameAt(s: string, i: nat, name: string)
    requires NamedAt(s, i, name) && IsName(name) && (i > 0 ==> s[i - 1] != '\\') && !NameChar(s[i + 2 + |name|])
    ensures Opens(s, i) && NameStart(s[i + 2]) && NameEnd(s, i + 3) == i + 2 + |name|
  {
    forall x | i + 2 <= x < i + 2 + |name| ensures s[x] == name[x - i - 2] {
      assert s[i + 2..i + 2 + |name|][x - i - 2] == s[x];
    }
    NameRun(s, i + 3, i + 2 + |name|);
  }

  lemma VarAt(s: string, i: nat, name: string)
    requires Valid(Var(name)) && StandsAt(s, i, Var(name))
    ensures MatchAt(s, i) == Some(Reference(name, None, i + Width(Var(name))))
  {
    NameAt(s, i, name);
  }

  lemma VarOrAt(s: string, i: nat, name: string, other: string)
    requires Valid(VarOr(name, other)) && StandsAt(s, i, VarOr(name, other))
    ensures MatchAt(s, i) == Some(Reference(name, Some(other), i + Width(VarOr(name, other))))
  {
    NameAt(s, i, name);
    DefaultEnd(s, i + 2 + |name|, other);
  }

  lemma DefaultEnd(s: string, e: nat, other: string)
    requires DefaultAt(s, e, other) && '}' !in other
    ensures Find(s, '}', e + 2) == e + 2 + |other|
  {
    forall x | e + 2 <= x < e + 2 + |other| ensures s[x] != '}' {
      assert s[e + 2..e + 2 + |other|][x - e - 2] == s[x];
    }
    FindAt(s, '}', e + 2, e + 2 + |other|);
  }

  // ---- the pieces of the text --------------------------------------------------------------

  lemma WrittenEnd(p: Piece)
    requires Valid(p)
    ensures Written(p) != "" && Written(p)[|Written(p)| - 1] != '\\'
  {
  }

  /** The pieces stand one after the other from `i` to the end. */
  predicate Placed(s: string, i: nat, ps: seq<Piece>)
    decreases |ps|
  {
    if ps == [] then i == |s| else StandsAt(s, i, ps[0]) && Placed(s, i + Width(ps[0]), ps[1..])
  }

  lemma {:induction false} PlacedAll(u: string, ps: seq<Piece>)
    requires AllValid(ps) && NotEscaping(u)
    ensures Placed(u + WrittenAll(ps), |u|, ps)
    decreases |ps|
  {
    if ps == [] {
      assert u + WrittenAll(ps) == u;
    } else {
      WrittenEnd(ps[0]);
      PlacedAll(u + Written(ps[0]), ps[1..]);
      PlacedFirst(u, ps[0], WrittenAll(ps[1..]), ps[1..]);
      assert ps == [ps[0]] + ps[1..];
    }
  }

  lemma PlacedFirst(u: string, p: Piece, v: string, ps: seq<Piece>)
    requires Valid(p) && NotEscaping(u) && Placed(u + Written(p) + v, |u + Written(p)|, ps)
    ensures Placed(u + (Written(p) + v), |u|, [p] + ps)
  {
    Regroup(u, Written(p), v);
    Stands(u, p, v);
    assert ([p] + ps)[1..] == ps;
  }

  lemma Regroup(a: string, b: string, c: string)
    ensures a + (b + c) == a + b + c
  {
  }

  // ---- the tokens of the pieces ------------------------------------------------------------

  function Count(p: Piece): nat {
    if p.Escape? then 3 else 1
  }

  predicate IsTokens(p: Piece, ts: seq<Token>) {
    match p
    case Plain(c) => ts == [Char(c)]
    case Escape => ts == [Char('\\'), Char('$'), Char('{')]
    case Var(name) => |ts| == 1 && ts[0].Ref? && ts[0].ref.name == name && ts[0].ref.fallback == None
    case VarOr(name, other) => |ts| == 1 && ts[0].Ref? && ts[0].ref.name == name && ts[0].ref.fallback == Some(other)
  }

  predicate AreTokens(ps: seq<Piece>, ts: seq<Token>)
    decreases |ps|
  {
    if ps == [] then ts == []
    else Count(ps[0]) <= |ts| && IsTokens(ps[0], ts[..Count(ps[0])]) && AreTokens(ps[1..], ts[Count(ps[0])..])
  }

  /** `ts` are the tokens from `i` on. */
  predicate Lexes(s: string, i: nat, ts: seq<Token>)
    decreases |ts|
  {
    if ts == [] then i == |s| else FirstIs(s, i, ts[0]) && Lexes(s, NextAt(i, ts[0]), ts[1..])
  }

  predicate FirstIs(s: string, i: nat, t: Token) {
    match t
    case Char(c) => i < |s| && MatchAt(s, i) == None && s[i] == c
    case Ref(ref, source) => MatchAt(s, i) == Some(ref) && source == s[i..ref.end]
  }

  function NextAt(i: nat, t: Token): nat {
    if t.Char? then i + 1 else t.ref.end
  }

  lemma {:induction false} LexesOnly(s: string, i: nat, ts: seq<Token>)
    requires i <= |s| && Lexes(s, i, ts)
    ensures Tokens(s, i) == ts
    decreases |ts|
  {
    if ts != [] {
      TokensCons(s, i, ts[0]);
      LexesOnly(s, NextAt(i, ts[0]), ts[1..]);
      assert ts == [ts[0]] + ts[1..];
    }
  }

  lemma TokensCons(s: string, i: nat, t: Token)
    requires i <= |s| && FirstIs(s, i, t)
    ensures NextAt(i, t) <= |s| && Tokens(s, i) == [t] + Tokens(s, NextAt(i, t))
  {
  }

  lemma LexCons(s: string, i: nat, t: Token, rest: seq<Token>)
    requires FirstIs(s, i, t) && Lexes(s, NextAt(i, t), rest)
    ensures Lexes(s, i, [t] + rest)
  {
    assert ([t] + rest)[1..] == rest;
  }

  lemma PlainFirst(s: string, i: nat)
    requires i < |s| && !Opens(s, i)
    ensures FirstIs(s, i, Char(s[i]))
  {
  }

  lemma PieceTokens(s: string, i: nat, p: Piece, rest: seq<Token>) returns (ts: seq<Token>)
    requires Valid(p) && StandsAt(s, i, p) && Lexes(s, i + Width(p), rest)
    ensures IsTokens(p, ts) && Lexes(s, i, ts + rest)
  {
    match p
    case Plain(c) => ts := PlainTokens(s, i, rest);
    case Escape => ts := EscapeTokens(s, i, rest);
    case Var(name) => ts := VarTokens(s, i, name, rest);
    case VarOr(name, other) => ts := VarOrTokens(s, i, name, other, rest);
  }

  lemma PlainTokens(s: string, i: nat, rest: seq<Token>) returns (ts: seq<Token>)
    requires i < |s| && s[i] != '$' && Lexes(s, i + 1, rest)
    ensures ts == [Char(s[i])] && Lexes(s, i, ts + rest)
  {
    ts := [Char(s[i])];
    PlainFirst(s, i);
    LexCons(s, i, Char(s[i]), rest);
  }

  lemma VarTokens(s: string, i: nat, name: string, rest: seq<Token>) returns (ts: seq<Token>)
    requires Valid(Var(name)) && StandsAt(s, i, Var(name)) && Lexes(s, i + Width(Var(name)), rest)
    ensures IsTokens(Var(name), ts) && Lexes(s, i, ts + rest)
  {
    VarAt(s, i, name);
    ts := RefTokens(s, i, Reference(name, None, i + Width(Var(name))), rest);
  }

  lemma VarOrTokens(s: string, i: nat, name: string, other: string, rest: seq<Token>) returns (ts: seq<Token>)
    requires var p := VarOr(name, other); Valid(p) && StandsAt(s, i, p) && Lexes(s, i + Width(p), rest)
    ensures IsTokens(VarOr(name, other), ts) && Lexes(s, i, ts + rest)
  {
    VarOrAt(s, i, name, other);
    ts := RefTokens(s, i, Reference(name, Some(other), i + Width(VarOr(name, other))), rest);
  }

  lemma RefTokens(s: string, i: nat, m: Reference, rest: seq<Token>) returns (ts: seq<Token>)
    requires MatchAt(s, i) == Some(m) && Lexes(s, m.end, rest)
    ensures |ts| == 1 && ts[0].Ref? && ts[0].ref == m && Lexes(s, i, ts + rest)
  {
    var t := Ref(m, s[i..m.end]);
    ts := [t];
    LexCons(s, i, t, rest);
  }

  lemma EscapeTokens(s: string, i: nat, rest: seq<Token>) returns (ts: seq<Token>)
    requires EscapedAt(s, i) && Lexes(s, i + 3, rest)
    ensures IsTokens(Escape, ts) && Lexes(s, i, ts + rest)
  {
    ts := [Char('\\'), Char('$'), Char('{')];
    PlainFirst(s, i);
    PlainFirst(s, i + 1);
    PlainFirst(s, i + 2);
    LexCons(s, i + 2, Char('{'), rest);
    LexCons(s, i + 1, Char('$'), [Char('{')] + rest);
    LexCons(s, i, Char('\\'), [Char('$')] + ([Char('{')] + rest));
    assert ts + rest == [Char('\\')] + ([Char('$')] + ([Char('{')] + rest));
  }

  lemma {:induction false} PiecesTokens(s: string, i: nat, ps: seq<Piece>) returns (all: seq<Token>)
    requires AllValid(ps) && Placed(s, i, ps)
    ensures Lexes(s, i, all) && AreTokens(ps, all)
    decreases |ps|, 1
  {
    if ps == [] {
      all := [];
    } else {
      all := MoreTokens(s, i, ps[0], ps[1..]);
      assert [ps[0]] + ps[1..] == ps;
    }
  }

  lemma {:induction false} MoreTokens(s: string, i: nat, p: Piece, ps: seq<Piece>) returns (all: seq<Token>)
    requires Valid(p) && AllValid(ps) && StandsAt(s, i, p) && Placed(s, i + Width(p), ps)
    ensures Lexes(s, i, all) && AreTokens([p] + ps, all)
    decreases |ps| + 1, 0
  {
    var rest := PiecesTokens(s, i + Width(p), ps);
    all := ConsTokens(s, i, p, ps, rest);
  }

  lemma ConsTokens(s: string, i: nat, p: Piece, ps: seq<Piece>, rest: seq<Token>) returns (all: seq<Token>)
    requires Valid(p) && StandsAt(s, i, p) && Lexes(s, i + Width(p), rest) && AreTokens(ps, rest)
    ensures Lexes(s, i, all) && AreTokens([p] + ps, all)
  {
    var ts := PieceTokens(s, i, p, rest);
    all := ts + rest;
    assert ([p] + ps)[1..] == ps;
    FirstTokens([p] + ps, ts, rest);
  }

  lemma FirstTokens(ps: seq<Piece>, ts: seq<Token>, rest: seq<Token>)
    requires ps != [] && IsTokens(ps[0], ts) && AreTokens(ps[1..], rest)
    ensures AreTokens(ps, ts + rest)
  {
    assert (ts + rest)[..Count(ps[0])] == ts && (ts + rest)[Count(ps[0])..] == rest;
  }

  // ---- what the tokens amount to -----------------------------------------------------------

  lemma {:induction false} TokensAmount(ps: seq<Piece>, ts: seq<Token>, env: Env)
    requires AreTokens(ps, ts) && AllValid(ps)
    ensures Verbatim(ts, env) == AnswerAll(ps, env) && MissingIn(ts, env) == LackingAll(ps, env)
    decreases |ps|
  {
    if ps != [] {
      var k := Count(ps[0]);
      TokensAmount(ps[1..], ts[k..], env);
      PieceAmounts(ps[0], ts, env);
    }
  }

  lemma PieceAmounts(p: Piece, ts: seq<Token>, env: Env)
    requires Valid(p) && Count(p) <= |ts| && IsTokens(p, ts[..Count(p)])
    ensures Verbatim(ts, env) == Answer(p, env) + Verbatim(ts[Count(p)..], env)
    ensures MissingIn(ts, env) == Lacking(p, env) + MissingIn(ts[Count(p)..], env)
  {
    assert ts[..Count(p)][0] == ts[0];
    if p.Escape? {
      assert ts[..3][1] == ts[1] && ts[..3][2] == ts[2];
      EscapeAmounts(ts, env);
    } else {
      assert !Spelled(ts);
    }
  }

  lemma EscapeAmounts(ts: seq<Token>, env: Env)
    requires Spelled(ts)
    ensures Verbatim(ts, env) == "${" + Verbatim(ts[3..], env) && MissingIn(ts, env) == MissingIn(ts[3..], env)
  {
    assert ts[1..][1..] == ts[2..] && ts[2..][1..] == ts[3..] && ts[1..][0] == ts[1] && ts[2..][0] == ts[2];
    assert MissingIn(ts[2..], env) == MissingIn(ts[3..], env);
    assert MissingIn(ts[1..], env) == MissingIn(ts[2..], env);
  }

  // ---- the laws ----------------------------------------------------------------------------

  /**
   Every template expands to the answers of its pieces, exactly when no other escaped `${` arises; the names
   reported are those of the references that have neither a value nor a default, in order.
   */
  lemma TemplateExpands(ps: seq<Piece>, env: Env)
    requires AllValid(ps)
    ensures ExpandString(WrittenAll(ps), env).1 == LackingAll(ps, env)
    ensures ExpandString(WrittenAll(ps), env).0 == AnswerAll(ps, env) <==>
            NoNewEscape(Tokens(WrittenAll(ps), 0), env)
  {
    PlacedAll("", ps);
    assert "" + WrittenAll(ps) == WrittenAll(ps);
    var all := PiecesTokens(WrittenAll(ps), 0, ps);
    LexesOnly(WrittenAll(ps), 0, all);
    TokensAmount(ps, all, env);
    ValuesArriveIff(WrittenAll(ps), env);
  }

  /** The piece brings in no backslash. */
  predicate Harmless(p: Piece, env: Env) {
    p.Escape? || '\\' !in Answer(p, env)
  }

  lemma BackslashToken(env: Env)
    ensures '\\' in Substituted(Char('\\'), env)
  {
    assert Substituted(Char('\\'), env)[0] == '\\';
  }

  /** A token whose text has no backslash starts no escape. */
  lemma TokenQuiet(ts: seq<Token>, env: Env)
    requires ts != [] && '\\' !in Substituted(ts[0], env) && NoNewEscape(ts[1..], env)
    ensures NoNewEscape(ts, env)
  {
    var t := Substituted(ts[0], env);
    BackslashToken(env);
    assert !Spelled(ts);
    assert Joined(ts, env) == t + Joined(ts[1..], env);
    forall i | 0 <= i < |t| ensures !EscapedAt(Joined(ts, env), i) { assert Joined(ts, env)[i] == t[i]; }
  }

  lemma {:induction false} TokensQuiet(ps: seq<Piece>, ts: seq<Token>, env: Env)
    requires AreTokens(ps, ts) && AllValid(ps) && forall i | 0 <= i < |ps| :: Harmless(ps[i], env)
    ensures NoNewEscape(ts, env)
    decreases |ps|
  {
    if ps != [] {
      TokensQuiet(ps[1..], ts[Count(ps[0])..], env);
      PieceQuiet(ps[0], ts, env);
    }
  }

  lemma PieceQuiet(p: Piece, ts: seq<Token>, env: Env)
    requires Valid(p) && Harmless(p, env) && Count(p) <= |ts| && IsTokens(p, ts[..Count(p)])
    requires NoNewEscape(ts[Count(p)..], env)
    ensures NoNewEscape(ts, env)
  {
    assert ts[..Count(p)][0] == ts[0];
    if p.Escape? { assert ts[..3][1] == ts[1] && ts[..3][2] == ts[2]; } else { TokenQuiet(ts, env); }
  }

  /** So it does whenever no value or default that is used has a backslash. */
  lemma HarmlessTemplateExpands(ps: seq<Piece>, env: Env)
    requires AllValid(ps) && forall i | 0 <= i < |ps| :: Harmless(ps[i], env)
    ensures ExpandString(WrittenAll(ps), env) == (AnswerAll(ps, env), LackingAll(ps, env))
  {
    PlacedAll("", ps);
    assert "" + WrittenAll(ps) == WrittenAll(ps);
    var all := PiecesTokens(WrittenAll(ps), 0, ps);
    LexesOnly(WrittenAll(ps), 0, all);
    TokensQuiet(ps, all, env);
    TemplateExpands(ps, env);
  }

  /** `\${` stands somewhere in the text. */
  predicate HasEscape(s: string) {
    exists i | 0 <= i < |s| :: EscapedAt(s, i)
  }

  lemma {:induction false} EscapesNone(s: string)
    ensures Escapes(s) == 0 <==> !HasEscape(s)
  {
    if s != "" {
      if StartsEscaped(s) {
        assert EscapedAt(s, 0);
      } else {
        EscapesNone(s[1..]);
        LaterEscape(s);
      }
    }
  }

  lemma LaterEscape(s: string)
    requires s != "" && !StartsEscaped(s)
    ensures HasEscape(s) <==> HasEscape(s[1..])
  {
    if HasEscape(s) {
      var i :| 0 <= i < |s| && EscapedAt(s, i);
      assert EscapedAt(s[1..], i - 1);
    }
    if HasEscape(s[1..]) {
      var i :| 0 <= i < |s[1..]| && EscapedAt(s[1..], i);
      assert EscapedAt(s, i + 1);
    }
  }

  predicate Escapeless(ps: seq<Piece>) {
    forall i | 0 <= i < |ps| :: !ps[i].Escape?
  }

  /** Without escapes in the template there is nothing to resolve but what values bring in. */
  lemma {:induction false} NothingSpelled(ps: seq<Piece>, ts: seq<Token>, env: Env)
    requires AreTokens(ps, ts) && AllValid(ps) && Escapeless(ps)
    ensures SpelledCount(ts) == 0 && Verbatim(ts, env) == Joined(ts, env)
    decreases |ps|
  {
    if ps != [] {
      NothingSpelled(ps[1..], ts[Count(ps[0])..], env);
      assert ts[..Count(ps[0])][0] == ts[0];
      assert !Spelled(ts);
    }
  }

  /** A template without escapes expands to the answers of its pieces exactly if `\${` does not occur in those. */
  lemma EscapelessTemplateExpands(ps: seq<Piece>, env: Env)
    requires AllValid(ps) && Escapeless(ps)
    ensures ExpandString(WrittenAll(ps), env).1 == LackingAll(ps, env)
    ensures ExpandString(WrittenAll(ps), env).0 == AnswerAll(ps, env) <==> !HasEscape(AnswerAll(ps, env))
  {
    PlacedAll("", ps);
    assert "" + WrittenAll(ps) == WrittenAll(ps);
    var all := PiecesTokens(WrittenAll(ps), 0, ps);
    LexesOnly(WrittenAll(ps), 0, all);
    TemplateExpands(ps, env);
    TokensAmount(ps, all, env);
    NothingSpelled(ps, all, env);
    EscapesCounted(all, env);
    EscapesNone(Joined(all, env));
  }

  // ---- one reference in plain text ---------------------------------------------------------

  predicate PlainText(u: string) {
    '$' !in u && '\\' !in u
  }

  function Plains(u: string): seq<Piece> {
    if u == "" then [] else [Plain(u[0])] + Plains(u[1..])
  }

  lemma Cons(p: Piece, ps: seq<Piece>, env: Env)
    ensures WrittenAll([p] + ps) == Written(p) + WrittenAll(ps)
    ensures AnswerAll([p] + ps, env) == Answer(p, env) + AnswerAll(ps, env)
    ensures LackingAll([p] + ps, env) == Lacking(p, env) + LackingAll(ps, env)
  {
    assert ([p] + ps)[1..] == ps;
  }

  /** Pieces without escapes that are written and answered like this. */
  predicate Gives(ps: seq<Piece>, env: Env, written: string, answer: string, lacking: seq<string>) {
    && WrittenAll(ps) == written && AnswerAll(ps, env) == answer && LackingAll(ps, env) == lacking
    && AllValid(ps) && Escapeless(ps)
  }

  lemma {:induction false} PlainsThen(
      u: string, ps: seq<Piece>, env: Env, written: string, answer: string, lacking: seq<string>)
    requires PlainText(u) && Gives(ps, env, written, answer, lacking)
    ensures Gives(Plains(u) + ps, env, u + written, u + answer, lacking)
  {
    if u == "" {
      assert Plains(u) + ps == ps && u + written == written && u + answer == answer;
    } else {
      PlainsThen(u[1..], ps, env, written, answer, lacking);
      PlainCons(u[0], Plains(u[1..]) + ps, env, u[1..] + written, u[1..] + answer, lacking);
      assert Plains(u) + ps == [Plain(u[0])] + (Plains(u[1..]) + ps);
      Split(u, written);
      Split(u, answer);
    }
  }

  lemma Split(u: string, v: string)
    requires u != ""
    ensures [u[0]] + (u[1..] + v) == u + v
  {
  }

  lemma PlainCons(c: char, qs: seq<Piece>, env: Env, written: string, answer: string, lacking: seq<string>)
    requires c != '$' && c != '\\' && Gives(qs, env, written, answer, lacking)
    ensures Gives([Plain(c)] + qs, env, [c] + written, [c] + answer, lacking)
  {
    Cons(Plain(c), qs, env);
    assert [] + lacking == lacking;
  }

  lemma OnePiece(u: string, p: Piece, v: string, env: Env)
    requires PlainText(u) && PlainText(v) && Valid(p) && !p.Escape?
    ensures ExpandString(u + Written(p) + v, env).1 == Lacking(p, env)
    ensures ExpandString(u + Written(p) + v, env).0 == u + Answer(p, env) + v <==> !HasEscape(Answer(p, env) + v)
  {
    PlainsThen(v, [], env, "", "", []);
    assert Plains(v) + [] == Plains(v) && v + "" == v;
    Cons(p, Plains(v), env);
    assert Lacking(p, env) + [] == Lacking(p, env);
    assert Gives([p] + Plains(v), env, Written(p) + v, Answer(p, env) + v, Lacking(p, env));
    PlainsThen(u, [p] + Plains(v), env, Written(p) + v, Answer(p, env) + v, Lacking(p, env));
    Regroup(u, Written(p), v);
    Regroup(u, Answer(p, env), v);
    EscapelessTemplateExpands(Plains(u) + ([p] + Plains(v)), env);
    PlainBefore(u, Answer(p, env) + v);
  }

  /** Plain text in front of a text adds no `\${`. */
  lemma PlainBefore(u: string, a: string)
    requires PlainText(u)
    ensures HasEscape(u + a) <==> HasEscape(a)
  {
    var s := u + a;
    if HasEscape(s) {
      var i :| 0 <= i < |s| && EscapedAt(s, i);
      assert forall k | 0 <= k < |u| :: s[k] == u[k] && u[k] != '\\';
      assert EscapedAt(a, i - |u|);
    }
    if HasEscape(a) {
      var i :| 0 <= i < |a| && EscapedAt(a, i);
      assert EscapedAt(s, |u| + i);
    }
  }

  lemma PlainHasNone(v: string)
    requires PlainText(v)
    ensures !HasEscape(v)
  {
  }

  /** `${name:-d}` is the value of a variable that is set and not empty, otherwise `d`, and never missing. */
  lemma DefaultExpands(u: string, name: string, d: string, v: string, env: Env)
    requires PlainText(u) && PlainText(v) && IsName(name) && '}' !in d
    ensures var r := ExpandString(u + ("${" + name + ":-" + d + "}") + v, env);
            var taken := if name in env && env[name] != "" then env[name] else d;
            r.1 == [] && (r.0 == u + taken + v <==> !HasEscape(taken + v))
  {
    OnePiece(u, VarOr(name, d), v, env);
  }

  /** `${name}` is the value of a variable that is set and not empty, otherwise nothing, and then reported. */
  lemma ReferenceExpands(u: string, name: string, v: string, env: Env)
    requires PlainText(u) && PlainText(v) && IsName(name)
    ensures var r := ExpandString(u + ("${" + name + "}") + v, env);
            if name in env && env[name] != "" then
              r.1 == [] && (r.0 == u + env[name] + v <==> !HasEscape(env[name] + v))
            else r == (u + v, [name])
  {
    OnePiece(u, Var(name), v, env);
    assert u + "" + v == u + v && "" + v == v;
    PlainHasNone(v);
  }
}
