/** The lock name of a plan file, core/app/storage/plan_fs.py lines 48-53. */
module PlanLockName {
  import opened Decimals

  /** `f"plan:{agent}:{user}:{conversation}:{turn}"`; the user id is any string. */
  function LockName(agent: int, user: string, conversation: int, turn: int): string {
    "plan:" + Shown(agent) + ":" + user + ":" + Shown(conversation) + ":" + Shown(turn)
  }

  predicate Colonless(s: string) {
    forall i | 0 <= i < |s| :: s[i] != ':'
  }

  lemma ShownColonless(n: int)
    ensures Colonless(Shown(n))
  {
    forall i | 0 <= i < |Shown(n)| ensures Shown(n)[i] != ':' { ShownChars(n, i); }
  }

  /** What precedes the first colon is determined. */
  lemma FirstColon(a: string, r: string, b: string, s: string)
    requires Colonless(a) && Colonless(b) && a + ":" + r == b + ":" + s
    ensures a == b && r == s
  {
    var x := a + ":" + r;
    assert x[|a|] == ':' && x[|b|] == ':';
    assert forall i | 0 <= i < |a| :: x[i] == a[i];
    assert forall i | 0 <= i < |b| :: x[i] == b[i];
    assert |a| == |b|;
    assert a == x[..|a|] && b == x[..|b|];
    assert r == x[|a| + 1..] && s == x[|b| + 1..];
  }

  /** What follows the last colon is determined. */
  lemma LastColon(r: string, a: string, s: string, b: string)
    requires Colonless(a) && Colonless(b) && r + ":" + a == s + ":" + b
    ensures a == b && r == s
  {
    var x := r + ":" + a;
    assert x[|r|] == ':' && x[|s|] == ':';
    assert forall i | |r| < i < |x| :: x[i] == a[i - |r| - 1];
    assert forall i | |s| < i < |x| :: x[i] == b[i - |s| - 1];
    assert |r| == |s|;
    assert r == x[..|r|] && s == x[..|s|];
    assert a == x[|r| + 1..] && b == x[|s| + 1..];
  }

  lemma SameRest(x: string, y: string)
    requires "plan:" + x == "plan:" + y
    ensures x == y
  {
    assert ("plan:" + x)[5..] == x && ("plan:" + y)[5..] == y;
  }

  lemma Regroup(a: string, u: string)
    ensures "plan:" + a + ":" + u == "plan:" + (a + ":" + u)
  {
  }

  /** The four parts of a name can be told apart. */
  lemma NameParts(a: string, u: string, c: string, t: string, a': string, u': string, c': string, t': string)
    requires Colonless(a) && Colonless(c) && Colonless(t) && Colonless(a') && Colonless(c') && Colonless(t')
    requires "plan:" + a + ":" + u + ":" + c + ":" + t == "plan:" + a' + ":" + u' + ":" + c' + ":" + t'
    ensures a == a' && u == u' && c == c' && t == t'
  {
    var p, p' := "plan:" + a + ":" + u, "plan:" + a' + ":" + u';
    LastColon(p + ":" + c, t, p' + ":" + c', t');
    LastColon(p, c, p', c');
    Regroup(a, u);
    Regroup(a', u');
    SameRest(a + ":" + u, a' + ":" + u');
    FirstColon(a, u, a', u');
  }

  /** Different turns never share a lock, even if user ids contain colons. */
  lemma LockNameInjective(a: int, u: string, c: int, t: int, a': int, u': string, c': int, t': int)
    requires LockName(a, u, c, t) == LockName(a', u', c', t')
    ensures a == a' && u == u' && c == c' && t == t'
  {
    ShownColonless(a); ShownColonless(a');
    ShownColonless(c); ShownColonless(c');
    ShownColonless(t); ShownColonless(t');
    NameParts(Shown(a), u, Shown(c), Shown(t), Shown(a'), u', Shown(c'), Shown(t'));
    ShownInjective(a, a');
    ShownInjective(c, c');
    ShownInjective(t, t');
  }
}
